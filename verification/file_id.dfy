/** The `fileId` route parameter shared by every SFTP handler. */
module FileId {
  import opened Common

  /** Go's two's-complement reinterpretation of an `int64` as a `uint64`. */
  function ToUint64(i: Int64): (u: Uint64)
    ensures 0 <= i ==> u == i
    ensures i < 0 ==> 0x8000_0000_0000_0000 <= u
    ensures ToInt64(u) == i
    ensures u == 0 <==> i == 0
  {
    if 0 <= i then i else i + 0x1_0000_0000_0000_0000
  }

  /** Go's two's-complement reinterpretation of a `uint64` as an `int64`. */
  function ToInt64(u: Uint64): Int64
  {
    if u < 0x8000_0000_0000_0000 then u else u - 0x1_0000_0000_0000_0000
  }

  /** Different signed ids never collapse onto the same unsigned id. */
  lemma ToUint64Injective(i: Int64, j: Int64)
    requires ToUint64(i) == ToUint64(j)
    ensures i == j
  {
    assert i == ToInt64(ToUint64(i));
  }

  /** GetMachineFileId: `parsed` is the value `strconv.Atoi` produced for the
      route parameter, its error being discarded: zero when the parameter
      is not a number, and the nearest `int64` bound when it is a number
      out of range. A zero id is refused; any other id is converted to
      `uint64`. */
  function MachineFileId(parsed: Int64): (r: Result<Uint64>)
    ensures r.Err? <==> parsed == 0
    ensures r.Err? ==> r.error == InvalidFileId
    ensures r.Ok? ==> r.value != 0 && ToInt64(r.value) == parsed
  {
    if parsed != 0 then Ok(ToUint64(parsed)) else Err(InvalidFileId)
  }
}
