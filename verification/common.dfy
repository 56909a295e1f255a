/** Values shared by every handler of the machine-file API: optional values,
    handler results, the error conditions a handler reports to its caller,
    and the Go integer widths the handlers work with (a 64-bit platform). */
module Common {

  datatype Option<+T> = None | Some(value: T)

  /** The conditions under which a handler aborts the request with an error
      instead of producing a response. Limits are carried so that the message
      can name the bound that was violated. */
  datatype ApiError =
    | InvalidFileId               // the fileId route parameter is zero or not a number
    | ListFailed                  // the remote directory listing failed
    | ReadFailed                  // reading an opened remote file failed
    | FileTooLargeToView(limit: nat) // inline view of a file of at least `limit` bytes
    | FileTooLarge(limit: nat)    // a single upload larger than `limit` bytes
    | EmptyBasePath               // a folder upload without a base path
    | NoFiles                     // a folder upload without files
    | FolderTooLarge(limit: nat)  // a folder upload whose total size exceeds `limit`
    | MissingPaths                // a folder upload with files but no relative paths
    | MissingFileHeader           // a folder upload with more relative paths than files
    | MkDirFailed                 // a directory creation of a folder upload failed

  datatype Result<+T> = Ok(value: T) | Err(error: ApiError)

  /** Go's `int` and `int64` on a 64-bit platform. */
  type Int64 = x: int | -0x8000_0000_0000_0000 <= x < 0x8000_0000_0000_0000

  /** Go's `uint64`. */
  type Uint64 = x: int | 0 <= x < 0x1_0000_0000_0000_0000
}
