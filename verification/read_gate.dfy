/** ReadFileContent: the size gate of the inline view and the file name a
    download is offered under. */
module ReadGate {
  import opened Common
  import opened Paths

  /** Largest size, exclusive, of a file whose content may be viewed inline
      (1 MiB). */
  const MaxReadSize: nat := 1 * 1024 * 1024

  /** The `type` query value that asks for a download instead of a view. */
  const DownloadType: string := "1"

  /** What the handler answers: a download stream offered under `filename`,
      or the file's content as text. */
  datatype Reply = Download(filename: string) | Content(text: string)

  /** ReadFileContent after the file was opened and stat'ed: `size` is the
      stat'ed size, `readAll` the outcome of reading the whole file (None
      when the read fails). */
  function ReadFileContent(readPath: string, readType: string, size: int, readAll: Option<string>): (r: Result<Reply>)
    ensures readType == DownloadType ==> r == Ok(Download(Base(readPath)))
    ensures readType != DownloadType && MaxReadSize <= size ==> r == Err(FileTooLargeToView(MaxReadSize))
    ensures readType != DownloadType && size < MaxReadSize ==>
      (readAll.Some? ==> r == Ok(Content(readAll.value))) && (readAll.None? ==> r == Err(ReadFailed))
  {
    if readType != DownloadType && !(size < MaxReadSize) then Err(FileTooLargeToView(MaxReadSize))
    else if readType == DownloadType then Ok(Download(Base(readPath)))
    else match readAll
      case None => Err(ReadFailed)
      case Some(text) => Ok(Content(text))
  }

  /** A view request whose read succeeds is answered with content exactly
      when the file is smaller than 1 MiB. */
  lemma ViewAdmittedIff(readPath: string, readType: string, size: int, text: string)
    requires readType != DownloadType
    ensures ReadFileContent(readPath, readType, size, Some(text)).Ok? <==> size < MaxReadSize
  {
  }

  /** A download is never refused, and its answer does not depend on the
      size or on reading the content. */
  lemma DownloadIgnoresSize(readPath: string, size1: int, size2: int, read1: Option<string>, read2: Option<string>)
    ensures ReadFileContent(readPath, DownloadType, size1, read1) == ReadFileContent(readPath, DownloadType, size2, read2)
    ensures ReadFileContent(readPath, DownloadType, size1, read1).Ok?
  {
  }

  /** The download name is the last "/"-separated segment of the path: it
      holds no separator, is a suffix of the path, is preceded by a separator
      when shorter than the path, and is the whole path when it has no
      separator. */
  lemma DownloadName(readPath: string, size: int, readAll: Option<string>)
    ensures var r := ReadFileContent(readPath, DownloadType, size, readAll);
      && r.Ok? && r.value.Download?
      && var name := r.value.filename;
      && name == Split(readPath)[|Split(readPath)| - 1]
      && Sep !in name
      && readPath[|readPath| - |name|..] == name
      && (|name| < |readPath| ==> readPath[|readPath| - |name| - 1] == Sep)
      && (Sep !in readPath ==> name == readPath)
  {
  }
}
