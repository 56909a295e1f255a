/** Concrete runs of the upload handlers. */
module Scenarios {
  import opened Common
  import opened Paths
  import opened Trace
  import opened UploadPlan
  import opened UploadWorker
  import opened Upload

  /** Every upload succeeds. */
  function AllDone(dir: string, name: string): CallResult
  {
    Done
  }

  /** Only the upload of "b.txt" fails, with a business error. */
  function FailB(dir: string, name: string): CallResult
  {
    if name == "b.txt" then Panicked(BizError(500, "disk full")) else Done
  }

  /** Every directory can be created. */
  function AllMade(path: string): bool
  {
    true
  }

  /** Every directory but `bad` can be created. */
  function RefuseOnly(bad: string): MkDirOracle
  {
    p => p != bad
  }

  /** The directories of one top-level file and two files of one
      sub-directory. */
  lemma ScenarioDirs(a: string, sub: string, b: string, c: string)
    requires Sep !in a && Sep !in b && Sep !in c && sub != ""
    ensures Dir(a) == "." && Dir(JoinDir(sub, b)) == sub && Dir(JoinDir(sub, c)) == sub
    ensures Dirs([a, JoinDir(sub, b), JoinDir(sub, c)]) == [".", sub, sub]
  {
    DirBaseSplit(a);
    BaseDirOfJoin(sub, b);
    BaseDirOfJoin(sub, c);
  }

  /** First-occurrence deduplication of those directories. */
  lemma ScenarioDedup(sub: string)
    requires sub != "."
    ensures Dedup([".", sub]) == [".", sub]
    ensures Dedup([".", sub, sub]) == [".", sub]
  {
    var ds := [".", sub, sub];
    assert ds[..2][..1] == ["."];
    assert Dedup(ds[..1]) == ["."];
    assert Dedup(ds[..2]) == [".", sub];
  }

  /** The three files fit the quota. */
  lemma ScenarioAdmitted(base: string, a: string, sub: string, b: string, c: string, sa: nat, sb: nat, sc: nat)
    requires base != ""
    requires sa + sb + sc <= MaxUploadFileSize
    ensures FolderAdmitted(base, [a, JoinDir(sub, b), JoinDir(sub, c)],
                           [FileHeader(a, sa), FileHeader(b, sb), FileHeader(c, sc)])
  {
    var headers := [FileHeader(a, sa), FileHeader(b, sb), FileHeader(c, sc)];
    assert headers[..2][..1] == headers[..1];
    assert headers[..1][..0] == [];
    assert TotalSize(headers[..1]) == sa;
    assert TotalSize(headers[..2]) == sa + sb;
  }

  /** The planned files: each with its directory. */
  lemma ScenarioFiles(a: string, sub: string, b: string, c: string, sa: nat, sb: nat, sc: nat)
    requires Sep !in a && Sep !in b && Sep !in c && sub != ""
    ensures FolderFiles([a, JoinDir(sub, b), JoinDir(sub, c)], [FileHeader(a, sa), FileHeader(b, sb), FileHeader(c, sc)])
      == [FolderFile(".", FileHeader(a, sa)), FolderFile(sub, FileHeader(b, sb)), FolderFile(sub, FileHeader(c, sc))]
  {
    ScenarioDirs(a, sub, b, c);
  }

  /** The directories created: "." and `sub`, once each. */
  lemma ScenarioMkDirs(base: string, a: string, sub: string, b: string, c: string)
    requires Sep !in a && Sep !in b && Sep !in c && sub != "" && sub != "."
    ensures MkDirPlan(base, [a, JoinDir(sub, b), JoinDir(sub, c)])
      == [MkDir(JoinDir(base, ".")), MkDir(JoinDir(base, sub))]
    ensures MkDirPlan(base, [a, JoinDir(sub, b)]) == [MkDir(JoinDir(base, ".")), MkDir(JoinDir(base, sub))]
  {
    ScenarioDirs(a, sub, b, c);
    assert Dirs([a, JoinDir(sub, b)]) == [".", sub];
    ScenarioDedup(sub);
  }

  /** The uploads of the planned files. */
  lemma ScenarioAttempts(base: string, a: string, sub: string, b: string, c: string, sa: nat, sb: nat, sc: nat)
    ensures Attempts(base, [FolderFile(".", FileHeader(a, sa)), FolderFile(sub, FileHeader(b, sb)),
                            FolderFile(sub, FileHeader(c, sc))])
      == [UploadCall(JoinDir(base, "."), a), UploadCall(JoinDir(base, sub), b), UploadCall(JoinDir(base, sub), c)]
  {
  }

  /** The ends of a trace made of a prefix, a middle part and one last event. */
  lemma EndsOfConcat(t: seq<Event>, mk: seq<Event>, w: seq<Event>, last: Event)
    requires t == mk + w + [last]
    ensures |mk| < |t| && t[..|mk|] == mk && t[|t| - 1] == last
  {
    assert t[..|mk|] == mk;
  }

  /** Uploading, under `base`, a folder with file `a` at its top and files
      `b` and `c` in its sub-directory `sub`, when every creation and every
      upload succeeds: the top-level file's directory is ".", so
      `base + "/."` is created as well as `base + "/" + sub`, each once and
      before anything else; the three files are uploaded; and the folder,
      named ".", is reported as uploaded at the end. With base "/x", a
      "a.txt", sub "sub", b "b.txt" and c "c.txt" this is mkdir("/x/."),
      mkdir("/x/sub"), three uploads and one notification. */
  lemma ThreeFileFolder(base: string, a: string, sub: string, b: string, c: string, sa: nat, sb: nat, sc: nat)
    requires base != ""
    requires Sep !in a && Sep !in b && Sep !in c && sub != "" && sub != "."
    requires sa + sb + sc <= MaxUploadFileSize
    ensures var r := UploadFolder(base, [a, JoinDir(sub, b), JoinDir(sub, c)],
                                  [FileHeader(a, sa), FileHeader(b, sb), FileHeader(c, sc)],
                                  AllMade, AllDone, GroupSplit);
      && r.error == None
      && 2 < |r.trace|
      && r.trace[..2] == [MkDir(JoinDir(base, ".")), MkDir(JoinDir(base, sub))]
      && UploadsOf(r.trace)
         == [UploadCall(JoinDir(base, "."), a), UploadCall(JoinDir(base, sub), b), UploadCall(JoinDir(base, sub), c)]
      && r.trace[|r.trace| - 1] == SuccessNotice(".", base)
  {
    var paths := [a, JoinDir(sub, b), JoinDir(sub, c)];
    var headers := [FileHeader(a, sa), FileHeader(b, sb), FileHeader(c, sc)];
    var files := FolderFiles(paths, headers);
    var r := UploadFolder(base, paths, headers, AllMade, AllDone, GroupSplit);
    var mk := [MkDir(JoinDir(base, ".")), MkDir(JoinDir(base, sub))];
    var done := SuccessNotice(Dir(paths[0]), base);
    assert FolderProceeds(base, paths, headers, AllMade) by {
      ScenarioAdmitted(base, a, sub, b, c, sa, sb, sc);
    }
    assert r.trace == MkDirPlan(base, paths) + CleanRuns(base, GroupSplit(files)) + [done]
        && UploadsOf(r.trace) == Attempts(base, files) by {
      GroupSplitCoversPlan(paths, headers);
      FolderWithoutFailure(base, paths, headers, AllMade, AllDone, GroupSplit);
    }
    assert MkDirPlan(base, paths) == mk by {
      ScenarioMkDirs(base, a, sub, b, c);
    }
    assert Attempts(base, files)
        == [UploadCall(JoinDir(base, "."), a), UploadCall(JoinDir(base, sub), b), UploadCall(JoinDir(base, sub), c)] by {
      ScenarioFiles(a, sub, b, c, sa, sb, sc);
      ScenarioAttempts(base, a, sub, b, c, sa, sb, sc);
    }
    assert done == SuccessNotice(".", base) by {
      DirBaseSplit(a);
    }
    EndsOfConcat(r.trace, mk, CleanRuns(base, GroupSplit(files)), done);
  }

  /** The same folder when its sub-directory cannot be created: "." is
      created, the creation of `sub` fails, and the request ends there with
      nothing uploaded and nobody notified. */
  lemma SubDirRefused(base: string, a: string, sub: string, b: string, c: string, sa: nat, sb: nat, sc: nat)
    requires base != ""
    requires Sep !in a && Sep !in b && Sep !in c && sub != "" && sub != "."
    requires sa + sb + sc <= MaxUploadFileSize
    ensures UploadFolder(base, [a, JoinDir(sub, b), JoinDir(sub, c)],
                         [FileHeader(a, sa), FileHeader(b, sb), FileHeader(c, sc)],
                         RefuseOnly(JoinDir(base, sub)), AllDone, GroupSplit)
      == Response([MkDir(JoinDir(base, ".")), MkDir(JoinDir(base, sub))], Some(MkDirFailed))
  {
    var paths := [a, JoinDir(sub, b), JoinDir(sub, c)];
    var headers := [FileHeader(a, sa), FileHeader(b, sb), FileHeader(c, sc)];
    var ok := RefuseOnly(JoinDir(base, sub));
    ScenarioAdmitted(base, a, sub, b, c, sa, sb, sc);
    ScenarioDirs(a, sub, b, c);
    ScenarioMkDirs(base, a, sub, b, c);
    if JoinDir(base, ".") == JoinDir(base, sub) {
      JoinDirInjective(base, ".", sub);
    }
    assert Dirs(paths)[..0] == [] && Dirs(paths)[..1] == ["."];
    PlanStopPass(base, paths, headers, ok, 0);
    PlanStopHere(base, paths, headers, ok, 1, MkDirFailed);
    assert paths[..2] == [a, JoinDir(sub, b)];
  }

  /** A chunk whose second upload fails with a business error: the first
      file was uploaded, the second attempted, the worker signals
      completion and then reports the failure, and the third file is never
      attempted. */
  lemma SecondUploadFails()
    ensures var chunk := [FolderFile("sub", FileHeader("a.txt", 1)), FolderFile("sub", FileHeader("b.txt", 1)),
                          FolderFile("sub", FileHeader("c.txt", 1))];
      Worker("/x", chunk, FailB)
      == [UploadCall("/x/sub", "a.txt"), UploadCall("/x/sub", "b.txt"), WorkerDone, ErrorNotice(500, "disk full")]
  {
    var a := FolderFile("sub", FileHeader("a.txt", 1));
    var b := FolderFile("sub", FileHeader("b.txt", 1));
    var c := FolderFile("sub", FileHeader("c.txt", 1));
    assert JoinDir("/x", "sub") == "/x/sub";
    assert Outcome("/x", a, FailB) == Done;
    assert Outcome("/x", b, FailB) == Panicked(BizError(500, "disk full"));
    assert [a, b, c][1..] == [b, c];
    assert Worker("/x", [b, c], FailB) == [Attempt("/x", b), WorkerDone, ErrorNotice(500, "disk full")];
    assert Worker("/x", [a, b, c], FailB) == [Attempt("/x", a)] + Worker("/x", [b, c], FailB);
  }

  /** A failing worker does not stop its sibling: the second chunk is still
      uploaded in full and signals completion. */
  lemma SiblingChunkUnaffected()
    ensures Workers("/x", [[FolderFile("sub", FileHeader("b.txt", 1))],
                           [FolderFile("sub", FileHeader("d.txt", 1))]], FailB)
      == [UploadCall("/x/sub", "b.txt"), WorkerDone, ErrorNotice(500, "disk full"),
          UploadCall("/x/sub", "d.txt"), WorkerDone]
  {
    var b := FolderFile("sub", FileHeader("b.txt", 1));
    var d := FolderFile("sub", FileHeader("d.txt", 1));
    assert JoinDir("/x", "sub") == "/x/sub";
    assert Outcome("/x", b, FailB) == Panicked(BizError(500, "disk full"));
    assert Outcome("/x", d, FailB) == Done;
    assert Worker("/x", [b], FailB) == [Attempt("/x", b), WorkerDone, ErrorNotice(500, "disk full")];
    assert Worker("/x", [d], FailB) == [Attempt("/x", d)] + Worker("/x", [], FailB);
    var chunks := [[b], [d]];
    assert chunks[1..] == [[d]];
    assert Workers("/x", chunks[1..], FailB) == Worker("/x", [d], FailB) + Workers("/x", [], FailB);
  }
}
