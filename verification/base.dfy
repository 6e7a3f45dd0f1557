/** Primitive vocabulary shared by every module: Rust's fixed-width unsigned
    integers, `Option`, a failure-compatible `Result` (so that Rust's `?` can be
    written with `:-`), and the `std::io::Error` values that foreign calls return. */
module Base {

  type u8 = x: int | 0 <= x < 0x100
  type u16 = x: int | 0 <= x < 0x1_0000
  type u32 = x: int | 0 <= x < 0x1_0000_0000
  type u64 = x: int | 0 <= x < 0x1_0000_0000_0000_0000

  const U64_MAX: int := 0xFFFF_FFFF_FFFF_FFFF
  const I32_MAX: int := 0x7FFF_FFFF

  datatype Option<T> = None | Some(value: T)

  datatype Result<T, E> = Ok(value: T) | Err(error: E) {
    predicate IsFailure() {
      Err?
    }

    function PropagateFailure<U>(): Result<U, E>
      requires Err?
    {
      Err(error)
    }

    function Extract(): T
      requires Ok?
    {
      value
    }
  }

  /** The part of `std::io::ErrorKind` the core inspects: only `Interrupted` is
      told apart from every other kind. */
  datatype IoErrorKind = Interrupted | OtherKind(code: int)

  /** A `std::io::Error` returned by an operating-system call. */
  datatype IoError = IoError(kind: IoErrorKind)

  /** The runtime's `wasi_common::Error` as stream and UDP operations return it:
      a converted `std::io::Error`, or one raised without any operating-system
      call: not supported, a bad descriptor (`Error::badf()`), or a failed
      integer conversion (`TryFromIntError`). */
  datatype Error = FromIo(cause: IoError) | NotSupportedError | BadDescriptor | IntConversion

  /** The total length of a list of buffers. */
  function Sum(lens: seq<nat>): nat {
    if lens == [] then 0 else lens[0] + Sum(lens[1..])
  }

  function Min(a: int, b: int): int {
    if a <= b then a else b
  }

  function Max(a: int, b: int): int {
    if a >= b then a else b
  }
}
