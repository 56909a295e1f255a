/** Directory listing: classification of a remote file mode into the type
    code shown to the user, and one record per listed entry whose path is the
    normalised directory path followed by the entry's name. */
module DirEntry {
  import opened Common
  import opened Paths

  /** The type codes a record can carry. */
  const FileCode: string := "-"
  const DirCode: string := "d"
  const LinkCode: string := "l"

  /** What a remote file mode says about the kind of file: its directory
      bit, no type bit at all (a regular file), or any other type bit
      (symbolic link, device, pipe, socket, ...). */
  datatype ModeKind = Directory | Regular | Other

  /** An entry as the remote listing reports it. The rendered mode and the
      formatted modification time are carried through unchanged. */
  datatype RemoteEntry = RemoteEntry(name: string, size: int, kind: ModeKind, modeText: string, modTime: string)

  /** A record of the listing returned to the user. */
  datatype FileInfo = FileInfo(name: string, size: int, path: string, fileType: string, mode: string, modTime: string)

  /** getFileType: directories are "d", regular files "-", and every other
      kind falls back to "d". */
  function FileType(k: ModeKind): (t: string)
    ensures t == FileCode <==> k == Regular
    ensures t == DirCode <==> k != Regular
  {
    if k == Directory then DirCode
    else if k == Regular then FileCode
    else DirCode
  }

  /** The link code is never produced, whatever the mode. */
  lemma LinkCodeNeverProduced(k: ModeKind)
    ensures FileType(k) != LinkCode
  {
  }

  /** The record built for `e` listed under `dirPath`. */
  function ToInfo(dirPath: string, e: RemoteEntry): FileInfo
  {
    FileInfo(e.name, e.size, dirPath + e.name, FileType(e.kind), e.modeText, e.modTime)
  }

  /** The listing loop: one record per entry, in listing order, appended
      one at a time. */
  function BuildInfos(dirPath: string, es: seq<RemoteEntry>): (r: seq<FileInfo>)
    ensures |r| == |es|
    ensures forall i :: 0 <= i < |es| ==>
      && r[i].name == es[i].name
      && r[i].size == es[i].size
      && r[i].path == dirPath + es[i].name
      && r[i].fileType == FileType(es[i].kind)
      && r[i].mode == es[i].modeText
      && r[i].modTime == es[i].modTime
  {
    if |es| == 0 then []
    else BuildInfos(dirPath, es[..|es| - 1]) + [ToInfo(dirPath, es[|es| - 1])]
  }

  /** GetDirEntry without the final sort: the requested path is normalised to
      end in "/", that path is listed (`readDir` is the remote listing, None
      when it fails), and one record is built per listed entry. */
  function GetDirEntry(readPath: string, readDir: string -> Option<seq<RemoteEntry>>): (r: Result<seq<FileInfo>>)
    ensures readDir(EnsureTrailingSep(readPath)).None? <==> r.Err?
    ensures r.Err? ==> r.error == ListFailed
    ensures r.Ok? ==>
      var listed := readDir(EnsureTrailingSep(readPath)).value;
      && |r.value| == |listed|
      && forall i :: 0 <= i < |listed| ==>
        && r.value[i].name == listed[i].name
        && r.value[i].fileType == FileType(listed[i].kind)
        && r.value[i].path == EnsureTrailingSep(readPath) + listed[i].name
  {
    var dirPath := EnsureTrailingSep(readPath);
    match readDir(dirPath)
    case None => Err(ListFailed)
    case Some(es) => Ok(BuildInfos(dirPath, es))
  }

  /** For an entry name without separators, a record's path splits back into
      the listed directory and the name: its last segment is the name, and
      its directory is the requested path without its trailing "/", or "/"
      when the root was listed. */
  lemma InfoPathRoundTrip(readPath: string, e: RemoteEntry)
    requires Sep !in e.name
    ensures var info := ToInfo(EnsureTrailingSep(readPath), e);
      var d := EnsureTrailingSep(readPath)[..|EnsureTrailingSep(readPath)| - 1];
      && Base(info.path) == e.name
      && Dir(info.path) == if d == "" then [Sep] else d
  {
    var dirPath := EnsureTrailingSep(readPath);
    var d := dirPath[..|dirPath| - 1];
    var p := dirPath + e.name;
    assert dirPath == d + [Sep];
    assert p == d + [Sep] + e.name;
    BaseDirOfJoin(d, e.name);
  }
}
