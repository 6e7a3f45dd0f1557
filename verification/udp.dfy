/** `sock_recv` of the UDP socket: which native receive a set of flags selects,
    and how its outcome becomes the `(count, flags)` pair returned. The native
    receives are not executed; their outcomes are parameters. */
module Udp {
  import opened Base

  /** `RiFlags` bits (WASI preview 1 `riflags`). */
  const RECV_PEEK: bv16 := 1
  const RECV_WAITALL: bv16 := 2

  /** `RoFlags::empty()`. */
  const RO_EMPTY: bv16 := 0

  /** The native receive a call performs. */
  datatype RecvCall =
    | NoCall                        // peek into no buffer at all
    | Peek(firstLen: nat)           // peek into the first buffer only
    | ReadExactVectored(total: nat) // fill every buffer completely
    | ReadVectored(capacity: nat)   // one ordinary vectored read

  predicate Unsupported(flags: bv16) {
    flags & !(RECV_PEEK | RECV_WAITALL) != 0
  }

  /** The flag dispatch: anything beyond PEEK and WAITALL is rejected before any
      native call; PEEK is tested first, so it wins over WAITALL. */
  function RecvDispatch(bufLens: seq<nat>, flags: bv16): (r: Result<RecvCall, Error>)
    ensures r.Err? <==> Unsupported(flags)
    ensures r.Err? ==> r.error == NotSupportedError
    ensures r.Ok? && flags & RECV_PEEK != 0 ==> r.value.NoCall? || r.value.Peek?
    ensures r.Ok? && r.value.NoCall? <==> r.Ok? && flags & RECV_PEEK != 0 && bufLens == []
    ensures r.Ok? && r.value.Peek? ==> bufLens != [] && r.value.firstLen == bufLens[0]
    ensures r.Ok? && flags & RECV_PEEK == 0 && flags & RECV_WAITALL != 0 ==> r.value == ReadExactVectored(Sum(bufLens))
    ensures r.Ok? && flags & (RECV_PEEK | RECV_WAITALL) == 0 ==> r.value == ReadVectored(Sum(bufLens))
  {
    if Unsupported(flags) then Err(NotSupportedError)
    else if flags & RECV_PEEK != 0 then
      if bufLens == [] then Ok(NoCall) else Ok(Peek(bufLens[0]))
    else if flags & RECV_WAITALL != 0 then Ok(ReadExactVectored(Sum(bufLens)))
    else Ok(ReadVectored(Sum(bufLens)))
  }

  /** What each native receive would return; only the dispatched one is used. */
  datatype NativeRecv = NativeRecv(
    peek: Result<nat, IoError>,
    readExact: Result<(), IoError>,
    readVectored: Result<nat, IoError>)

  /** The native calls never report more bytes than the buffers they were given hold. */
  predicate WellBehaved(bufLens: seq<nat>, os: NativeRecv) {
    && (os.peek.Ok? && bufLens != [] ==> os.peek.value <= bufLens[0])
    && (os.readVectored.Ok? ==> os.readVectored.value <= Sum(bufLens))
  }

  /** `sock_recv`. The returned flags are always empty; the count never exceeds
      the buffers' total length; PEEK reports what the peek into the first
      buffer got, WAITALL exactly the total, a plain call what the vectored read
      got; an error of the native call is passed on. */
  function SockRecv(bufLens: seq<nat>, flags: bv16, os: NativeRecv): (r: Result<(u64, bv16), Error>)
    requires WellBehaved(bufLens, os)
    requires Sum(bufLens) <= U64_MAX
    ensures r.Ok? ==> r.value.1 == RO_EMPTY
    ensures r.Ok? ==> r.value.0 <= Sum(bufLens)
    ensures r == Err(NotSupportedError) <==> Unsupported(flags)
    ensures !Unsupported(flags) && flags & RECV_PEEK != 0 && bufLens == [] ==> r == Ok((0, RO_EMPTY))
    ensures !Unsupported(flags) && flags & RECV_PEEK != 0 && bufLens != [] ==>
              r == if os.peek.Ok? then Ok((os.peek.value, RO_EMPTY)) else Err(FromIo(os.peek.error))
    ensures !Unsupported(flags) && flags & RECV_PEEK == 0 && flags & RECV_WAITALL != 0 ==>
              r == if os.readExact.Ok? then Ok((Sum(bufLens), RO_EMPTY)) else Err(FromIo(os.readExact.error))
    ensures !Unsupported(flags) && flags & (RECV_PEEK | RECV_WAITALL) == 0 ==>
              r == if os.readVectored.Ok? then Ok((os.readVectored.value, RO_EMPTY)) else Err(FromIo(os.readVectored.error))
  {
    var call :- RecvDispatch(bufLens, flags);
    match call
    case NoCall => Ok((0, RO_EMPTY))
    case Peek(_) =>
      (match os.peek
       case Ok(n) => Ok((n, RO_EMPTY))
       case Err(e) => Err(FromIo(e)))
    case ReadExactVectored(total) =>
      (match os.readExact
       case Ok(_) => Ok((total, RO_EMPTY))
       case Err(e) => Err(FromIo(e)))
    case ReadVectored(_) =>
      (match os.readVectored
       case Ok(n) => Ok((n, RO_EMPTY))
       case Err(e) => Err(FromIo(e)))
  }

  /** With both PEEK and WAITALL set, the call behaves exactly as PEEK alone. */
  lemma PeekWinsOverWaitAll(bufLens: seq<nat>, os: NativeRecv)
    requires WellBehaved(bufLens, os)
    requires Sum(bufLens) <= U64_MAX
    ensures SockRecv(bufLens, RECV_PEEK | RECV_WAITALL, os) == SockRecv(bufLens, RECV_PEEK, os)
  {
  }
}

