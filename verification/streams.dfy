/** The stream views of a connected TCP socket: how the counts that native
    reads and copies return become the `(count, ended)` pairs the guest sees.
    The native calls themselves are not executed; their outcomes are parameters. */
module Streams {
  import opened Base

  /** The shared mapping of a native read: 0 bytes is end of stream, `n > 0`
      bytes is data, an interrupted read is "nothing yet", any other error is
      passed on. */
  function MapReadOutcome(os: Result<nat, IoError>): (r: Result<(u64, bool), Error>)
    requires os.Ok? ==> os.value <= U64_MAX
    ensures r.Ok? <==> os.Ok? || os.error.kind == Interrupted
    ensures r.Ok? && r.value.1 <==> os == Ok(0)
    ensures os.Ok? ==> r.value.0 == os.value
    ensures os.Err? && os.error.kind == Interrupted ==> r == Ok((0, false))
    ensures r.Err? ==> r.error == FromIo(os.error)
  {
    match os
    case Ok(0) => Ok((0, true))
    case Ok(n) => Ok((n, false))
    case Err(e) => if e.kind == Interrupted then Ok((0, false)) else Err(FromIo(e))
  }

  /** `read` into one buffer; the native call never reports more than the buffer holds. */
  function Read(bufLen: nat, os: Result<nat, IoError>): (r: Result<(u64, bool), Error>)
    requires bufLen <= U64_MAX
    requires os.Ok? ==> os.value <= bufLen
    ensures r.Ok? ==> r.value.0 <= bufLen
    ensures r.Ok? && r.value.1 ==> r.value.0 == 0
    ensures r.Ok? && r.value.0 > 0 ==> !r.value.1
    ensures os.Ok? && os.value > 0 ==> r == Ok((os.value, false))
    ensures os == Ok(0) ==> r == Ok((0, true))
  {
    MapReadOutcome(os)
  }

  /** `read_vectored`: the same mapping, bounded by the buffers' total capacity. */
  function ReadVectored(bufLens: seq<nat>, os: Result<nat, IoError>): (r: Result<(u64, bool), Error>)
    requires Sum(bufLens) <= U64_MAX
    requires os.Ok? ==> os.value <= Sum(bufLens)
    ensures r.Ok? ==> r.value.0 <= Sum(bufLens)
    ensures r.Ok? && r.value.1 ==> r.value.0 == 0
    ensures os.Ok? && os.value > 0 ==> r == Ok((os.value, false))
    ensures os == Ok(0) ==> r == Ok((0, true))
  {
    MapReadOutcome(os)
  }

  /** The pair a bounded copy of at most `nelem` bytes reports: the number
      copied, and whether the stream ended before `nelem` were copied. */
  function CopyResult(nelem: u64, copied: Result<nat, IoError>): (r: Result<(u64, bool), Error>)
    requires copied.Ok? ==> copied.value <= nelem
    ensures r.Ok? <==> copied.Ok?
    ensures r.Ok? ==> r.value.0 == copied.value <= nelem
    ensures r.Ok? ==> (r.value.1 <==> r.value.0 < nelem)
    ensures r.Err? ==> r.error == FromIo(copied.error)
  {
    match copied
    case Ok(num) => Ok((num, num < nelem))
    case Err(e) => Err(FromIo(e))
  }

  /** `skip`: discard up to `nelem` bytes; ended exactly when fewer were available. */
  function Skip(nelem: u64, copied: Result<nat, IoError>): (r: Result<(u64, bool), Error>)
    requires copied.Ok? ==> copied.value <= nelem
    ensures copied.Ok? ==> r.Ok? && r.value.0 == copied.value
    ensures r.Ok? ==> (r.value.1 <==> r.value.0 < nelem)
    ensures copied.Err? ==> r == Err(FromIo(copied.error))
  {
    CopyResult(nelem, copied)
  }

  /** `readable` and `writable`, of the stream views and of the socket itself:
      `rw` is the OS's answer to whether the descriptor is open for reading and
      for writing; the direction asked about must be open, otherwise the
      descriptor is reported as bad. */
  function Readiness(rw: Result<(bool, bool), IoError>, write: bool): (r: Result<(), Error>)
    ensures r.Ok? <==> rw.Ok? && (if write then rw.value.1 else rw.value.0)
    ensures rw.Err? ==> r == Err(FromIo(rw.error))
    ensures rw.Ok? && r.Err? ==> r.error == BadDescriptor
  {
    match rw
    case Err(e) => Err(FromIo(e))
    case Ok((readable, writable)) =>
      if (if write then writable else readable) then Ok(()) else Err(BadDescriptor)
  }

  /** `write` and `write_vectored`: the count the native write reports,
      converted with `try_into`, which fails instead of truncating. */
  function Write(os: Result<nat, IoError>): (r: Result<u64, Error>)
    ensures r.Ok? ==> os.Ok? && r.value == os.value
    ensures r.Err? <==> os.Err? || os.value > U64_MAX
    ensures os.Err? ==> r.error == FromIo(os.error)
    ensures os.Ok? && r.Err? ==> r.error == IntConversion
  {
    var n :- (match os case Ok(n) => Ok(n) case Err(e) => Err(FromIo(e)));
    if n <= U64_MAX then Ok(n) else Err(IntConversion)
  }

  /** `write_zeroes`: a bounded copy of at most `nelem` zero bytes into the
      socket; the count written is returned, with no end-of-stream flag. */
  function WriteZeroes(nelem: u64, copied: Result<nat, IoError>): (r: Result<u64, Error>)
    requires copied.Ok? ==> copied.value <= nelem
    ensures r.Ok? <==> copied.Ok?
    ensures r.Ok? ==> r.value == copied.value <= nelem
    ensures r.Err? ==> r.error == FromIo(copied.error)
  {
    match copied
    case Ok(num) => Ok(num)
    case Err(e) => Err(FromIo(e))
  }

  /** A bounded copy reports the same count whether it is a `write_zeroes` or a
      `skip`; only `skip` adds the flag saying the stream ended early. */
  lemma WriteZeroesAgreesWithCopy(nelem: u64, copied: Result<nat, IoError>)
    requires copied.Ok? ==> copied.value <= nelem
    ensures WriteZeroes(nelem, copied).Ok? <==> CopyResult(nelem, copied).Ok?
    ensures WriteZeroes(nelem, copied).Ok? ==>
              WriteZeroes(nelem, copied).value == CopyResult(nelem, copied).value.0
  {
  }

  /** `splice` as written: a source with a pollable handle is copied from; any
      other source makes the method call itself again with the same arguments.
      `fuel` bounds the calls; `None` means it ran out. */
  function SpliceAsWritten(srcPollable: bool, nelem: u64, copied: Result<nat, IoError>, fuel: nat)
    : (r: Option<Result<(u64, bool), Error>>)
    requires copied.Ok? ==> copied.value <= nelem
    ensures srcPollable ==> r == Some(CopyResult(nelem, copied))
    decreases fuel
  {
    if srcPollable then Some(CopyResult(nelem, copied))
    else if fuel == 0 then None
    else SpliceAsWritten(srcPollable, nelem, copied, fuel - 1)
  }

  /** A source without a pollable handle never gets a result: however many
      calls are allowed, the recursion has not returned. */
  lemma {:induction false} SpliceWithoutPollableSourceNeverReturns(nelem: u64, copied: Result<nat, IoError>, fuel: nat)
    requires copied.Ok? ==> copied.value <= nelem
    ensures SpliceAsWritten(false, nelem, copied, fuel) == None
    decreases fuel
  {
    if fuel > 0 {
      SpliceWithoutPollableSourceNeverReturns(nelem, copied, fuel - 1);
    }
  }

  /** `splice` corrected: a source without a pollable handle falls back to a
      copy through the source's own reads instead of recursing. `direct` is the
      outcome of the copy from the pollable handle, `fallback` that of the
      fallback copy; only the one that runs matters. Wherever the source as
      written returns, the corrected splice returns the same. */
  function Splice(srcPollable: bool, nelem: u64, direct: Result<nat, IoError>, fallback: Result<nat, IoError>)
    : (r: Result<(u64, bool), Error>)
    requires direct.Ok? ==> direct.value <= nelem
    requires fallback.Ok? ==> fallback.value <= nelem
    ensures r.Ok? ==> r.value.0 <= nelem && (r.value.1 <==> r.value.0 < nelem)
    ensures r.Err? ==> r.error.FromIo?
    ensures srcPollable ==> r == CopyResult(nelem, direct)
    ensures !srcPollable ==> r == CopyResult(nelem, fallback)
    ensures forall fuel: nat :: SpliceAsWritten(srcPollable, nelem, direct, fuel).Some? ==>
              SpliceAsWritten(srcPollable, nelem, direct, fuel) == Some(r)
  {
    if srcPollable then CopyResult(nelem, direct)
    else
      SpliceFallbackAgrees(nelem, direct);
      CopyResult(nelem, fallback)
  }

  lemma SpliceFallbackAgrees(nelem: u64, direct: Result<nat, IoError>)
    requires direct.Ok? ==> direct.value <= nelem
    ensures forall fuel: nat :: SpliceAsWritten(false, nelem, direct, fuel) == None
  {
    forall fuel: nat ensures SpliceAsWritten(false, nelem, direct, fuel) == None {
      SpliceWithoutPollableSourceNeverReturns(nelem, direct, fuel);
    }
  }
}
