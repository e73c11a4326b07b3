/** Integer widths and result types shared by every component. */
module Base {

  type byte = b: int | 0 <= b < 0x100
  type u32 = n: int | 0 <= n < 0x1_0000_0000
  type u64 = n: int | 0 <= n < 0x1_0000_0000_0000_0000

  const U64_MAX: u64 := 0xFFFF_FFFF_FFFF_FFFF

  datatype Option<+T> = None | Some(value: T)

  /** The error kinds of `std::io::Error` that the modelled code produces. */
  datatype ErrorKind =
    | AlreadyExists
    | NotFound
    | StorageFull
    | InvalidData
    | InvalidInput
    | HostUnreachable
    | WriteZero
    | UnexpectedEof
    | Io

  datatype Result<+T> = Ok(value: T) | Err(error: ErrorKind)

  /** `u64::wrapping_add(1)`. */
  function WrappingNext(n: u64): u64 {
    if n == U64_MAX then 0 else n + 1
  }
}
