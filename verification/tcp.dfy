/** The TCP socket of the capability layer: its lifecycle state, the guards
    checked against that state, and the socket object. Its setters and
    `Shutdown` run guard chains before touching the native socket; its getters
    read the native socket, and of them only `Ipv6Only` runs a guard.

    Operating-system calls are not executed: the native socket is an abstract
    record (`NativeSocket`), and whether a call succeeds is a parameter. */
module Tcp {
  import opened Base
  import opened Network

  /** A `WasiNetwork` capability; only which one is referred to matters here. */
  datatype NetworkRef = NetworkRef(id: nat)

  /** The network a socket was bound through and the local address it got. */
  datatype Binding = Binding(network: NetworkRef, localAddress: SocketAddr)

  /** An operation that has been started and not yet finished, with its arguments. */
  datatype TcpOperation =
    | Bind(network: NetworkRef, localAddress: SocketAddr)
    | Listen(network: NetworkRef)
    | Connect(network: NetworkRef, remoteAddress: SocketAddr)

  /** The lifecycle state. Only `Indeterminate` has a slot for an in-flight
      operation, so a listener or a connection with a pending operation cannot
      be written down. */
  datatype TcpState =
    | Indeterminate(listenBacklogSize: u64, binding: Option<Binding>, activeOperation: Option<TcpOperation>)
    | Listener(bound: Binding)
    | Connection(bound: Binding, remoteAddress: SocketAddr)

  const DEFAULT_LISTEN_BACKLOG_SIZE: u64 := 1024

  /** The state of a socket that has just been created. */
  function InitialState(): (s: TcpState)
    ensures s.Indeterminate? && s.listenBacklogSize == 1024
    ensures BindingOf(s) == None && ActiveOperation(s) == None
  {
    Indeterminate(DEFAULT_LISTEN_BACKLOG_SIZE, None, None)
  }

  /** The socket's binding, if it has one. */
  function BindingOf(s: TcpState): (r: Option<Binding>)
    ensures s.Indeterminate? ==> r == s.binding
    ensures !s.Indeterminate? ==> r == Some(s.bound)
  {
    match s
    case Indeterminate(_, binding, _) => binding
    case Listener(binding) => Some(binding)
    case Connection(binding, _) => Some(binding)
  }

  /** The in-flight operation, if any. */
  function ActiveOperation(s: TcpState): (r: Option<TcpOperation>)
    ensures s.Indeterminate? ==> r == s.activeOperation
    ensures !s.Indeterminate? ==> r == None
  {
    match s
    case Indeterminate(_, _, op) => op
    case Listener(_) => None
    case Connection(_, _) => None
  }

  // ---------------------------------------------------------------------------
  // Guards. Each one returns `Ok(())` or the error it stands for.
  // ---------------------------------------------------------------------------

  /** Succeeds exactly when a binding IS present: the opposite of what its name says. */
  function ValidateNotBound(s: TcpState): (r: Result<(), NetworkError>)
    ensures r.Ok? <==> BindingOf(s).Some?
    ensures r.Err? ==> r.error == AlreadyBound
  {
    match BindingOf(s)
    case Some(_) => Ok(())
    case None => Err(AlreadyBound)
  }

  function ValidateConnected(s: TcpState): (r: Result<(), NetworkError>)
    ensures r.Ok? <==> s.Connection?
    ensures r.Err? ==> r.error == NotConnected
  {
    match s
    case Indeterminate(_, _, _) => Err(NotConnected)
    case Listener(_) => Err(NotConnected)
    case Connection(_, _) => Ok(())
  }

  function ValidateNotConnected(s: TcpState): (r: Result<(), NetworkError>)
    ensures r.Ok? <==> !s.Connection?
    ensures r.Err? ==> r.error == AlreadyConnected
  {
    match s
    case Indeterminate(_, _, _) => Ok(())
    case Listener(_) => Ok(())
    case Connection(_, _) => Err(AlreadyConnected)
  }

  /** Succeeds exactly when an operation IS in flight: the opposite of what its name says. */
  function ValidateNoActiveOperation(s: TcpState): (r: Result<(), NetworkError>)
    ensures r.Ok? <==> ActiveOperation(s).Some?
    ensures r.Err? ==> r.error == ConcurrencyConflict
  {
    match ActiveOperation(s)
    case Some(_) => Ok(())
    case None => Err(ConcurrencyConflict)
  }

  /** Agrees with the condition under which `Ipv6OnlyOperation` applies. */
  function ValidateIsIpv6(family: AddressFamily): (r: Result<(), NetworkError>)
    ensures r.Ok? <==> !IsIpv6OnlyViolation(family)
    ensures r.Err? ==> r.error == Ipv6OnlyOperation
  {
    match family
    case INET6 => Ok(())
    case INET => Err(Ipv6OnlyOperation)
  }

  /** As written, the no-active-operation guard can pass only in `Indeterminate`:
      everywhere else `ActiveOperation` is `None`, so every setter guarded by it
      fails with `ConcurrencyConflict` on a listener or a connection. */
  lemma NoActiveOperationGuardNeedsIndeterminate(s: TcpState)
    ensures ValidateNoActiveOperation(s).Ok? ==> s.Indeterminate? && s.activeOperation.Some?
    ensures !s.Indeterminate? ==> ValidateNoActiveOperation(s) == Err(ConcurrencyConflict)
  {
  }

  // ---------------------------------------------------------------------------
  // Guard chains: the validators an operation runs, in source order; the first
  // failure is the operation's result.
  // ---------------------------------------------------------------------------

  /** `set_ipv6_only`: is-IPv6, then not-bound, then no-active-operation. */
  function SetIpv6OnlyGuard(family: AddressFamily, s: TcpState): (r: Result<(), NetworkError>)
    ensures r.Ok? <==> family == INET6 && BindingOf(s).Some? && ActiveOperation(s).Some?
    ensures family == INET ==> r == Err(Ipv6OnlyOperation)
    ensures family == INET6 && BindingOf(s).None? ==> r == Err(AlreadyBound)
    ensures family == INET6 && BindingOf(s).Some? && ActiveOperation(s).None? ==> r == Err(ConcurrencyConflict)
  {
    var _ :- ValidateIsIpv6(family);
    var _ :- ValidateNotBound(s);
    ValidateNoActiveOperation(s)
  }

  /** `set_unicast_hop_limit`: no-active-operation, then not-connected. */
  function SetUnicastHopLimitGuard(s: TcpState): (r: Result<(), NetworkError>)
    ensures r.Ok? <==> s.Indeterminate? && s.activeOperation.Some?
    ensures r.Err? ==> r.error == ConcurrencyConflict
  {
    var _ :- ValidateNoActiveOperation(s);
    ValidateNotConnected(s)
  }

  /** `shutdown`: no-active-operation, then connected. As written the two
      guards exclude each other, so shutdown is rejected in every state. */
  function ShutdownGuard(s: TcpState): (r: Result<(), NetworkError>)
    ensures r.Err?
    ensures r.error == if ActiveOperation(s).None? then ConcurrencyConflict else NotConnected
  {
    var _ :- ValidateNoActiveOperation(s);
    ValidateConnected(s)
  }

  /** On a socket fresh from `TcpSocket::new` every setter and `shutdown` is
      rejected before the native socket is touched. */
  lemma FreshSocketRejectsEverySetter(family: AddressFamily)
    ensures ValidateNoActiveOperation(InitialState()) == Err(ConcurrencyConflict)
    ensures SetUnicastHopLimitGuard(InitialState()) == Err(ConcurrencyConflict)
    ensures ShutdownGuard(InitialState()) == Err(ConcurrencyConflict)
    ensures SetIpv6OnlyGuard(family, InitialState())
         == Err(if family == INET then Ipv6OnlyOperation else AlreadyBound)
  {
  }

  // ---------------------------------------------------------------------------
  // Pure normalisations
  // ---------------------------------------------------------------------------

  /** The value handed to the native `listen`: `i32::try_from(value).unwrap_or(i32::MAX)`. */
  function ListenBacklogArg(value: u64): (r: int)
    ensures 0 <= r <= I32_MAX && r <= value
    ensures r == value || r == I32_MAX
  {
    if value <= I32_MAX then value else I32_MAX
  }

  /** The size actually requested from the OS for a guest's buffer size. Linux
      doubles a requested size for bookkeeping, so the request is halved there;
      on every platform it is at least 1. */
  function NormalizeSetBufferSize(value: u64, linux: bool): (r: u64)
    ensures r >= 1
    ensures linux ==> r == Max(value / 2, 1)
    ensures !linux ==> r == Max(value, 1)
    ensures r <= Max(value, 1)
  {
    var v := if linux then value / 2 else value;
    if v >= 1 then v else 1
  }

  /** What the OS reports back for a buffer size it was asked to set: Linux
      reports the doubled value, other platforms the value itself. */
  function KernelBufferSize(requested: nat, linux: bool): nat {
    if linux then 2 * requested else requested
  }

  /** Setting a buffer size and reading it back: at least 1; exactly the request
      (floored at 1) off Linux; on Linux within one of the request once it is 2 or more. */
  lemma BufferSizeRoundTrip(value: u64, linux: bool)
    ensures KernelBufferSize(NormalizeSetBufferSize(value, linux), linux) >= 1
    ensures !linux ==> KernelBufferSize(NormalizeSetBufferSize(value, linux), linux) == Max(value, 1)
    ensures linux && value >= 2 ==>
              value - 1 <= KernelBufferSize(NormalizeSetBufferSize(value, linux), linux) <= value
    ensures linux && value < 2 ==> KernelBufferSize(NormalizeSetBufferSize(value, linux), linux) == 2
  {
  }

  /** `u64::try_from(t).unwrap_or(u64::MAX)`: a native size saturates at `u64::MAX`. */
  function SaturateU64(t: nat): (r: u64)
    ensures r <= t
    ensures t <= U64_MAX ==> r == t
    ensures t > U64_MAX ==> r == U64_MAX
  {
    if t <= U64_MAX then t else U64_MAX
  }

  /** Every unrecognised OS error becomes `Unknown`; no OS detail leaks. */
  function MapGeneralError(e: IoError): (r: NetworkError)
    ensures r == Unknown
  {
    match e
    case _ => Unknown
  }

  // ---------------------------------------------------------------------------
  // The socket object
  // ---------------------------------------------------------------------------

  datatype ShutdownHow = Read | Write | Both

  /** The settings of the native OS socket that the core reads and writes. */
  datatype NativeSocket = NativeSocket(
    onlyV6: bool,
    keepAlive: bool,
    noDelay: bool,
    ttl: nat,
    unicastHopsV6: nat,
    recvBufferSize: nat,
    sendBufferSize: nat,
    listenBacklog: Option<int>,
    readShut: bool,
    writeShut: bool)

  /** The build target: whether it is Linux, and the largest `usize`. */
  datatype Platform = Platform(linux: bool, usizeMax: nat)

  /** The hop limit the native socket reports for a family. */
  function HopLimitOf(family: AddressFamily, n: NativeSocket): nat {
    match family
    case INET => n.ttl
    case INET6 => n.unicastHopsV6
  }

  /** The native socket after a successful `shutdown(how)`. */
  function AfterNativeShutdown(n: NativeSocket, how: ShutdownHow): NativeSocket {
    match how
    case Read => n.(readShut := true)
    case Write => n.(writeShut := true)
    case Both => n.(readShut := true, writeShut := true)
  }

  /** A TCP socket: its native handle, its fixed address family and its lifecycle
      state. Each `osOk` parameter says whether the native call the operation
      makes succeeds; a failed native call surfaces as `NotSupported`. */
  class TcpSocket {
    const platform: Platform
    const addressFamily: AddressFamily
    var state: TcpState
    var native: NativeSocket

    constructor (platform: Platform, addressFamily: AddressFamily, native: NativeSocket)
      ensures this.platform == platform && this.addressFamily == addressFamily
      ensures state == InitialState() && this.native == native
    {
      this.platform := platform;
      this.addressFamily := addressFamily;
      this.state := InitialState();
      this.native := native;
    }

    /** `TcpSocket::new`: creating the native socket either fails, with the
        error mapped to `Unknown`, or yields a socket of the requested family
        that starts unbound, idle, with a backlog of 1024. */
    static method New(platform: Platform, family: AddressFamily, created: Result<NativeSocket, IoError>)
      returns (r: Result<TcpSocket, NetworkError>)
      ensures created.Err? ==> r == Err(Unknown)
      ensures created.Ok? ==> r.Ok? && fresh(r.value)
      ensures created.Ok? ==> r.value.addressFamily == family && r.value.platform == platform
      ensures created.Ok? ==> r.value.native == created.value
      ensures created.Ok? ==> r.value.state == Indeterminate(1024, None, None)
    {
      match created
      case Err(e) =>
        r := Err(MapGeneralError(e));
      case Ok(native) =>
        var socket := new TcpSocket(platform, family, native);
        r := Ok(socket);
    }

    method LocalAddress() returns (r: Result<SocketAddr, NetworkError>)
      ensures r.Ok? <==> BindingOf(state).Some?
      ensures r.Ok? ==> r.value == BindingOf(state).value.localAddress
      ensures r.Err? ==> r.error == NotBound
    {
      match BindingOf(state)
      case Some(b) => r := Ok(b.localAddress);
      case None => r := Err(NotBound);
    }

    method RemoteAddress() returns (r: Result<SocketAddr, NetworkError>)
      ensures r.Ok? <==> state.Connection?
      ensures r.Ok? ==> r.value == state.remoteAddress
      ensures r.Err? ==> r.error == NotConnected
    {
      match state
      case Connection(_, remote) => r := Ok(remote);
      case Indeterminate(_, _, _) => r := Err(NotConnected);
      case Listener(_) => r := Err(NotConnected);
    }

    method AddressFamily() returns (family: AddressFamily)
      ensures family == addressFamily
    {
      family := addressFamily;
    }

    method Ipv6Only(osOk: bool) returns (r: Result<bool, NetworkError>)
      ensures addressFamily == INET ==> r == Err(Ipv6OnlyOperation)
      ensures addressFamily == INET6 && osOk ==> r == Ok(native.onlyV6)
      ensures addressFamily == INET6 && !osOk ==> r == Err(NotSupported)
    {
      var _ :- ValidateIsIpv6(addressFamily);
      r := if osOk then Ok(native.onlyV6) else Err(NotSupported);
    }

    method SetIpv6Only(value: bool, osOk: bool) returns (r: Result<(), NetworkError>)
      modifies this`native
      ensures SetIpv6OnlyGuard(addressFamily, state).Err? ==>
                r == SetIpv6OnlyGuard(addressFamily, state) && native == old(native)
      ensures SetIpv6OnlyGuard(addressFamily, state).Ok? && osOk ==>
                r == Ok(()) && native == old(native).(onlyV6 := value)
      ensures SetIpv6OnlyGuard(addressFamily, state).Ok? && !osOk ==>
                r == Err(NotSupported) && native == old(native)
    {
      var _ :- SetIpv6OnlyGuard(addressFamily, state);
      if osOk {
        native := native.(onlyV6 := value);
        r := Ok(());
      } else {
        r := Err(NotSupported);
      }
    }

    /** In `Indeterminate` only the stored backlog changes; in `Listener` the
        native `listen` is re-issued with the value clamped to `i32::MAX` and its
        failure ignored; in `Connection` the result is `AlreadyConnected`. */
    method SetListenBacklogSize(value: u64, listenOk: bool) returns (r: Result<(), NetworkError>)
      modifies this
      ensures ValidateNoActiveOperation(old(state)).Err? ==>
                r == Err(ConcurrencyConflict) && state == old(state) && native == old(native)
      ensures ValidateNoActiveOperation(old(state)).Ok? && old(state).Indeterminate? ==>
                r == Ok(()) && state == old(state).(listenBacklogSize := value) && native == old(native)
      ensures ValidateNoActiveOperation(old(state)).Ok? && old(state).Listener? ==>
                r == Ok(()) && state == old(state)
                && native == if listenOk then old(native).(listenBacklog := Some(ListenBacklogArg(value)))
                             else old(native)
      ensures ValidateNoActiveOperation(old(state)).Ok? && old(state).Connection? ==>
                r == Err(AlreadyConnected) && state == old(state) && native == old(native)
    {
      var _ :- ValidateNoActiveOperation(state);
      // Re-issuing `listen` is the `Listener` arm's only effect; written as one
      // unconditional update because that arm is unreachable as written.
      native := if state.Listener? && listenOk
                then native.(listenBacklog := Some(ListenBacklogArg(value)))
                else native;
      match state
      case Indeterminate(_, binding, op) =>
        state := Indeterminate(value, binding, op);
        r := Ok(());
      case Listener(_) =>
        r := Ok(());
      case Connection(_, _) =>
        r := Err(AlreadyConnected);
    }

    method KeepAlive(osOk: bool) returns (r: Result<bool, NetworkError>)
      ensures osOk ==> r == Ok(native.keepAlive)
      ensures !osOk ==> r == Err(NotSupported)
    {
      r := if osOk then Ok(native.keepAlive) else Err(NotSupported);
    }

    method SetKeepAlive(value: bool, osOk: bool) returns (r: Result<(), NetworkError>)
      modifies this`native
      ensures ValidateNoActiveOperation(state).Err? ==> r == Err(ConcurrencyConflict) && native == old(native)
      ensures ValidateNoActiveOperation(state).Ok? && osOk ==>
                r == Ok(()) && native == old(native).(keepAlive := value)
      ensures ValidateNoActiveOperation(state).Ok? && !osOk ==> r == Err(NotSupported) && native == old(native)
    {
      var _ :- ValidateNoActiveOperation(state);
      if osOk {
        native := native.(keepAlive := value);
        r := Ok(());
      } else {
        r := Err(NotSupported);
      }
    }

    method NoDelay(osOk: bool) returns (r: Result<bool, NetworkError>)
      ensures osOk ==> r == Ok(native.noDelay)
      ensures !osOk ==> r == Err(NotSupported)
    {
      r := if osOk then Ok(native.noDelay) else Err(NotSupported);
    }

    method SetNoDelay(value: bool, osOk: bool) returns (r: Result<(), NetworkError>)
      modifies this`native
      ensures ValidateNoActiveOperation(state).Err? ==> r == Err(ConcurrencyConflict) && native == old(native)
      ensures ValidateNoActiveOperation(state).Ok? && osOk ==>
                r == Ok(()) && native == old(native).(noDelay := value)
      ensures ValidateNoActiveOperation(state).Ok? && !osOk ==> r == Err(NotSupported) && native == old(native)
    {
      var _ :- ValidateNoActiveOperation(state);
      if osOk {
        native := native.(noDelay := value);
        r := Ok(());
      } else {
        r := Err(NotSupported);
      }
    }

    /** Reads the TTL (IPv4) or the unicast hop count (IPv6). The native value
        must fit a `u8`, since the source unwraps that conversion. */
    method UnicastHopLimit(osOk: bool) returns (r: Result<u8, NetworkError>)
      requires osOk ==> HopLimitOf(addressFamily, native) < 0x100
      ensures osOk ==> r == Ok(HopLimitOf(addressFamily, native))
      ensures !osOk ==> r == Err(NotSupported)
    {
      if !osOk {
        r := Err(NotSupported);
      } else {
        match addressFamily
        case INET => r := Ok(native.ttl);
        case INET6 => r := Ok(native.unicastHopsV6);
      }
    }

    method SetUnicastHopLimit(value: u8, osOk: bool) returns (r: Result<(), NetworkError>)
      modifies this`native
      ensures SetUnicastHopLimitGuard(state).Err? ==>
                r == SetUnicastHopLimitGuard(state) && native == old(native)
      ensures SetUnicastHopLimitGuard(state).Ok? && osOk ==> r == Ok(())
      ensures SetUnicastHopLimitGuard(state).Ok? && osOk && addressFamily == INET ==>
                native == old(native).(ttl := value)
      ensures SetUnicastHopLimitGuard(state).Ok? && osOk && addressFamily == INET6 ==>
                native == old(native).(unicastHopsV6 := value)
      ensures SetUnicastHopLimitGuard(state).Ok? && !osOk ==> r == Err(NotSupported) && native == old(native)
    {
      var _ :- SetUnicastHopLimitGuard(state);
      if !osOk {
        r := Err(NotSupported);
      } else {
        match addressFamily {
          case INET => native := native.(ttl := value);
          case INET6 => native := native.(unicastHopsV6 := value);
        }
        r := Ok(());
      }
    }

    method ReceiveBufferSize(osOk: bool) returns (r: Result<u64, NetworkError>)
      ensures osOk ==> r.Ok? && r.value == Min(native.recvBufferSize, U64_MAX)
      ensures !osOk ==> r == Err(NotSupported)
    {
      r := if osOk then Ok(SaturateU64(native.recvBufferSize)) else Err(NotSupported);
    }

    /** The size passed to the OS is the normalised one; it must fit a `usize`,
        since the source unwraps that conversion. */
    method SetReceiveBufferSize(value: u64, osOk: bool) returns (r: Result<(), NetworkError>)
      requires ValidateNoActiveOperation(state).Ok? ==>
                 NormalizeSetBufferSize(value, platform.linux) <= platform.usizeMax
      modifies this`native
      ensures ValidateNoActiveOperation(state).Err? ==> r == Err(ConcurrencyConflict) && native == old(native)
      ensures ValidateNoActiveOperation(state).Ok? && osOk ==>
                r == Ok(()) && native == old(native).(recvBufferSize :=
                  KernelBufferSize(NormalizeSetBufferSize(value, platform.linux), platform.linux))
      ensures ValidateNoActiveOperation(state).Ok? && !osOk ==> r == Err(NotSupported) && native == old(native)
    {
      var _ :- ValidateNoActiveOperation(state);
      var normalized := NormalizeSetBufferSize(value, platform.linux);
      if osOk {
        native := native.(recvBufferSize := KernelBufferSize(normalized, platform.linux));
        r := Ok(());
      } else {
        r := Err(NotSupported);
      }
    }

    method SendBufferSize(osOk: bool) returns (r: Result<u64, NetworkError>)
      ensures osOk ==> r.Ok? && r.value == Min(native.sendBufferSize, U64_MAX)
      ensures !osOk ==> r == Err(NotSupported)
    {
      r := if osOk then Ok(SaturateU64(native.sendBufferSize)) else Err(NotSupported);
    }

    method SetSendBufferSize(value: u64, osOk: bool) returns (r: Result<(), NetworkError>)
      requires ValidateNoActiveOperation(state).Ok? ==>
                 NormalizeSetBufferSize(value, platform.linux) <= platform.usizeMax
      modifies this`native
      ensures ValidateNoActiveOperation(state).Err? ==> r == Err(ConcurrencyConflict) && native == old(native)
      ensures ValidateNoActiveOperation(state).Ok? && osOk ==>
                r == Ok(()) && native == old(native).(sendBufferSize :=
                  KernelBufferSize(NormalizeSetBufferSize(value, platform.linux), platform.linux))
      ensures ValidateNoActiveOperation(state).Ok? && !osOk ==> r == Err(NotSupported) && native == old(native)
    {
      var _ :- ValidateNoActiveOperation(state);
      var normalized := NormalizeSetBufferSize(value, platform.linux);
      if osOk {
        native := native.(sendBufferSize := KernelBufferSize(normalized, platform.linux));
        r := Ok(());
      } else {
        r := Err(NotSupported);
      }
    }

    /** As written the guards reject every state (see `ShutdownGuard`), so the
        native socket is never shut down; the native call after them is kept,
        as one unconditional update. */
    method Shutdown(how: ShutdownHow, osOk: bool) returns (r: Result<(), NetworkError>)
      modifies this`native
      ensures r == ShutdownGuard(state) && native == old(native)
    {
      var guard := ShutdownGuard(state);
      r := if guard.Err? then guard else if osOk then Ok(()) else Err(NotSupported);
      native := if guard.Ok? && osOk then AfterNativeShutdown(native, how) else native;
    }
  }
}
