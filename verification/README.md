# Socket capability layer: a Dafny model

This project models the host-side socket layer of a WASI preview-2 prototype:
the layer that gives a sandboxed guest TCP and UDP sockets as capabilities.
Its centre is the TCP socket record in `wasi-common/cap-std-sync/src/net.rs`:

- **Lifecycle state.** The state is `Indeterminate` (backlog size, optional binding, optional in-flight operation), `Listener` (binding) or `Connection` (binding and remote address).
- **Guards.** Five validators are checked against that state.
- **Socket operations.** The option setters and `shutdown` run chains of those validators in a fixed order before touching the native OS socket. The getters read the native socket (or the state, for the addresses); of them only `ipv6_only` runs a validator.

Alongside it the project models:
- the UDP `sock_recv` flag dispatch;
- the mapping of native read and copy results to the `(count, ended)` pairs of the stream views;
- the guest-to-host socket-address conversions of `host/src/tcp.rs`;
- the shared error and address-family vocabulary of `wasi-common/src/network.rs`;
- the adapter's decimal printer and assertion macros in `src/macros.rs`.

Modules, one per source file or component:

| file | module | models |
|---|---|---|
| `base.dfy` | `Base` | `u8`..`u64`, `Option`, a `Result` that supports `:-` (Rust's `?`), `std::io::Error` kinds, the runtime `Error`, buffer-length sums |
| `network.dfy` | `Network` | `AddressFamily`, `NetworkError`, host socket addresses, and when `InvalidRemoteAddress`, `AddressFamilyMismatch` and `Ipv6OnlyOperation` apply |
| `tcp.dfy` | `Tcp` | `TcpState`, the accessors and validators, guard chains, buffer-size normalisation, the `TcpSocket` class |
| `udp.dfy` | `Udp` | `sock_recv` |
| `streams.dfy` | `Streams` | `read`, `read_vectored`, `skip`, `splice`, `write`, `write_vectored`, `write_zeroes`, `readable`, `writable` |
| `host_tcp.dfy` | `HostTcp` | the `From` conversions and `convert_ipv4_addr` / `convert_ipv6_addr` |
| `macros.dfy` | `Macros` | `eprint_u32`, `unreachable!(msg)`, `assert!`, `assert_eq!` |

How operating-system calls appear: the native socket is an abstract record
(`Tcp.NativeSocket`) held in a field of `Tcp.TcpSocket`. Each operation that
calls the OS takes a parameter saying whether that call succeeds. The values the
TCP getters return come from the `native` field (`Tcp.NativeSocket`). In the
stream and UDP operations, where the OS returns a value, the parameter is that
result. The setters change only the
`native` field, and only on success. `set_listen_backlog_size` also rewrites
the `state` field.

Two validators behave as written, which is the opposite of what their names say:
- `validate_not_bound` succeeds exactly when the socket IS bound.
- `validate_no_active_operation` succeeds exactly when an operation IS in flight.

The model keeps both as written and proves what follows from them:
- Every setter guarded by the second validator fails outside `Indeterminate`.
- The `Listener` and `Connection` arms of `set_listen_backlog_size` cannot be reached.
- `shutdown` is rejected in every state.
- On a freshly created socket, every setter is rejected.

The Linux man-page rule quoted in `net.rs` is modelled as `Tcp.KernelBufferSize`. That rule says the kernel doubles a buffer size when it is set. The buffer-size setters store the doubled value on Linux.

## Model

| member | source | states |
|---|---|---|
| `Network.IsAddressFamilyMismatch` | wasi-common/src/network.rs:81-82 | an address/family mismatch holds exactly when an IPv4 address meets an IPv6 resource or the reverse |
| `Network.IsInvalidRemoteAddress` | wasi-common/src/network.rs:84-85 | an address is a valid remote address exactly when its IP is not the wildcard (`0.0.0.0` / `::`) and its port is not 0 |
| `Network.IsIpv6OnlyViolation` | wasi-common/src/network.rs:90-91 | the IPv6-only error applies exactly to an IPv4 resource |
| `Tcp.BindingOf` | wasi-common/cap-std-sync/src/net.rs:67-73 | in `Indeterminate` the stored optional binding; in `Listener` and `Connection` always `Some` of their binding |
| `Tcp.ActiveOperation` | wasi-common/cap-std-sync/src/net.rs:75-81 | in `Indeterminate` the stored optional operation; in `Listener` and `Connection` always `None` |
| `Tcp.InitialState` | wasi-common/cap-std-sync/src/net.rs:158-162 | a new socket is `Indeterminate` with backlog 1024, unbound, with no operation in flight |
| `Tcp.ValidateNotBound` | wasi-common/cap-std-sync/src/net.rs:83-88 | `Ok` exactly when a binding is present (inverted, as written), otherwise `AlreadyBound` |
| `Tcp.ValidateConnected` | wasi-common/cap-std-sync/src/net.rs:90-96 | `Ok` exactly in `Connection`, otherwise `NotConnected` |
| `Tcp.ValidateNotConnected` | wasi-common/cap-std-sync/src/net.rs:98-104 | `Ok` exactly outside `Connection`, otherwise `AlreadyConnected` |
| `Tcp.ValidateNoActiveOperation` | wasi-common/cap-std-sync/src/net.rs:112-117 | `Ok` exactly when an operation is in flight (inverted, as written), otherwise `ConcurrencyConflict` |
| `Tcp.ValidateIsIpv6` | wasi-common/cap-std-sync/src/net.rs:119-124 | `Ok` exactly when `Ipv6OnlyOperation` does not apply (family `INET6`), otherwise `Ipv6OnlyOperation` |
| `Tcp.NoActiveOperationGuardNeedsIndeterminate` | wasi-common/cap-std-sync/src/net.rs:75-117 | the no-active-operation guard passes only in `Indeterminate` with an operation in flight; on a listener or connection it yields `ConcurrencyConflict` |
| `Tcp.SetIpv6OnlyGuard` | wasi-common/cap-std-sync/src/net.rs:292-297 | checks is-IPv6, then not-bound, then no-active-operation; passes exactly for a bound `INET6` socket with an operation in flight; the first failing check's error otherwise |
| `Tcp.SetUnicastHopLimitGuard` | wasi-common/cap-std-sync/src/net.rs:361-369 | passes exactly in `Indeterminate` with an operation in flight; its only possible error is `ConcurrencyConflict` |
| `Tcp.ShutdownGuard` | wasi-common/cap-std-sync/src/net.rs:410-414 | fails in every state: `ConcurrencyConflict` when no operation is in flight, `NotConnected` otherwise |
| `Tcp.FreshSocketRejectsEverySetter` | wasi-common/cap-std-sync/src/net.rs:155-163 | on the initial state every setter and `shutdown` is rejected (`ConcurrencyConflict`; `set_ipv6_only` gives `Ipv6OnlyOperation` on `INET`, `AlreadyBound` on `INET6`) |
| `Tcp.ListenBacklogArg` | wasi-common/cap-std-sync/src/net.rs:316 | the value passed to the native `listen` is the backlog clamped to `i32::MAX` |
| `Tcp.NormalizeSetBufferSize` | wasi-common/cap-std-sync/src/net.rs:423-435 | at least 1; `max(value/2, 1)` on Linux, `max(value, 1)` elsewhere; never above `max(value, 1)` |
| `Tcp.BufferSizeRoundTrip` | wasi-common/cap-std-sync/src/net.rs:424-432 | with the kernel's doubling, a size set and read back is at least 1; off Linux it is exactly `max(N, 1)`; on Linux it is within one of N for N ≥ 2 |
| `Tcp.SaturateU64` | wasi-common/cap-std-sync/src/net.rs:381 | a native size saturates at `u64::MAX` and is otherwise unchanged |
| `Tcp.MapGeneralError` | wasi-common/cap-std-sync/src/net.rs:437-447 | every OS error becomes `Unknown` |
| `Tcp.TcpSocket.New` | wasi-common/cap-std-sync/src/net.rs:138-165 | a creation failure gives `Unknown`; otherwise a fresh socket of the requested family in `Indeterminate` with backlog 1024, no binding, no operation |
| `Tcp.TcpSocket.LocalAddress` | wasi-common/cap-std-sync/src/net.rs:264-268 | the binding's local address when bound, otherwise `NotBound` |
| `Tcp.TcpSocket.RemoteAddress` | wasi-common/cap-std-sync/src/net.rs:270-278 | `Ok` exactly in `Connection`, with its remote address; `NotConnected` otherwise |
| `Tcp.TcpSocket.AddressFamily` | wasi-common/cap-std-sync/src/net.rs:280-282 | the family the socket was created with |
| `Tcp.TcpSocket.Ipv6Only` | wasi-common/cap-std-sync/src/net.rs:284-290 | `Ipv6OnlyOperation` on an `INET` socket without reaching the OS; otherwise the native setting, or `NotSupported` |
| `Tcp.TcpSocket.SetIpv6Only` | wasi-common/cap-std-sync/src/net.rs:292-300 | a failed guard is returned and nothing changes; otherwise the native setting is updated, or `NotSupported` with nothing changed |
| `Tcp.TcpSocket.SetListenBacklogSize` | wasi-common/cap-std-sync/src/net.rs:302-322 | after the guard: in `Indeterminate` only the stored backlog changes; in `Listener` `listen` is re-issued with the clamped value and its failure ignored; in `Connection` `AlreadyConnected` |
| `Tcp.TcpSocket.KeepAlive` | wasi-common/cap-std-sync/src/net.rs:324-328 | the native setting, or `NotSupported` |
| `Tcp.TcpSocket.SetKeepAlive` | wasi-common/cap-std-sync/src/net.rs:330-336 | guard failure leaves everything unchanged; otherwise sets the native option, or `NotSupported` with nothing changed |
| `Tcp.TcpSocket.NoDelay` | wasi-common/cap-std-sync/src/net.rs:338-342 | the native setting, or `NotSupported` |
| `Tcp.TcpSocket.SetNoDelay` | wasi-common/cap-std-sync/src/net.rs:344-350 | guard failure leaves everything unchanged; otherwise sets the native option, or `NotSupported` with nothing changed |
| `Tcp.TcpSocket.UnicastHopLimit` | wasi-common/cap-std-sync/src/net.rs:352-359 | the TTL (`INET`) or unicast hop count (`INET6`), which must fit a `u8`; or `NotSupported` |
| `Tcp.TcpSocket.SetUnicastHopLimit` | wasi-common/cap-std-sync/src/net.rs:361-375 | guard failure leaves everything unchanged; otherwise sets the TTL or hop count matching the family, or `NotSupported` |
| `Tcp.TcpSocket.ReceiveBufferSize` | wasi-common/cap-std-sync/src/net.rs:377-382 | the native size saturated to `u64::MAX`, or `NotSupported` |
| `Tcp.TcpSocket.SetReceiveBufferSize` | wasi-common/cap-std-sync/src/net.rs:384-392 | guard failure leaves everything unchanged; otherwise the normalised size is requested from the OS, or `NotSupported` |
| `Tcp.TcpSocket.SendBufferSize` | wasi-common/cap-std-sync/src/net.rs:394-398 | the native size saturated to `u64::MAX`, or `NotSupported` |
| `Tcp.TcpSocket.SetSendBufferSize` | wasi-common/cap-std-sync/src/net.rs:400-408 | guard failure leaves everything unchanged; otherwise the normalised size is requested from the OS, or `NotSupported` |
| `Tcp.TcpSocket.Shutdown` | wasi-common/cap-std-sync/src/net.rs:410-420 | returns the guard chain's error and leaves the native socket unchanged |
| `Udp.RecvDispatch` | wasi-common/cap-std-sync/src/net.rs:467-491 | flags outside PEEK and WAITALL are rejected before any native call; PEEK peeks into the first buffer or makes no call; WAITALL alone fills every buffer; no flag makes one vectored read |
| `Udp.SockRecv` | wasi-common/cap-std-sync/src/net.rs:462-493 | returned flags always empty; the count never exceeds the buffers' total; unsupported flags give `NotSupported`; PEEK with no buffers gives 0, with buffers the peek's count; WAITALL gives exactly the total; no flag gives the vectored read's count; every native error is passed on |
| `Udp.PeekWinsOverWaitAll` | wasi-common/cap-std-sync/src/net.rs:471-480 | with both flags set the result equals that of PEEK alone |
| `Streams.MapReadOutcome` | wasi-common/cap-std-sync/src/net.rs:536-541 | ended exactly when the OS read 0 bytes; `Interrupted` gives `(0, false)`; other errors are passed on |
| `Streams.Read` | wasi-common/cap-std-sync/src/net.rs:535-542 | a count n > 0 gives `(n, false)`, 0 gives `(0, true)`, never more than the buffer |
| `Streams.ReadVectored` | wasi-common/cap-std-sync/src/net.rs:543-553 | the same mapping, never more than the buffers' total |
| `Streams.CopyResult` | wasi-common/cap-std-sync/src/net.rs:560-564 | the count copied, with "ended" exactly when fewer than requested were copied |
| `Streams.Skip` | wasi-common/cap-std-sync/src/net.rs:559-565 | ended exactly when fewer bytes than requested were skipped; copy errors are passed on |
| `Streams.SpliceAsWritten` | wasi-common/cap-std-sync/src/net.rs:609-623 | with a pollable source the result is the copy's `(num, num < nelem)` |
| `Streams.SpliceWithoutPollableSourceNeverReturns` | wasi-common/cap-std-sync/src/net.rs:620-621 | without a pollable source the call never returns, however many recursive calls are allowed |
| `Streams.Splice` | wasi-common/cap-std-sync/src/net.rs:609-623 | always returns: the copy from the pollable handle when there is one, otherwise the fallback copy, each as `(num, num < nelem)` with errors passed on; agrees with the as-written splice wherever that returns |
| `Streams.Readiness` | wasi-common/cap-std-sync/src/net.rs:572-578 | `Ok` exactly when the OS reports the asked-for direction open; a closed direction is a bad descriptor; an OS error is passed on (also `readable`/`writable` at net.rs:503-517 and 631-637) |
| `Streams.Write` | wasi-common/cap-std-sync/src/net.rs:597-604 | the native write's count unchanged when it fits a `u64`, a conversion error when it does not; OS errors passed on |
| `Streams.WriteZeroes` | wasi-common/cap-std-sync/src/net.rs:624-630 | the number of zero bytes copied, at most `nelem`; copy errors passed on |
| `Streams.WriteZeroesAgreesWithCopy` | wasi-common/cap-std-sync/src/net.rs:624-630 | `write_zeroes` reports the same count as the bounded copy behind `skip` and `splice` |
| `HostTcp.ConvertIpv4Addr` | host/src/tcp.rs:205-207 | the four octets in order |
| `HostTcp.ConvertIpv6Addr` | host/src/tcp.rs:209-213 | the eight segments in order |
| `HostTcp.SocketAddrV4From` | host/src/tcp.rs:188-192 | port and octets preserved |
| `HostTcp.SocketAddrV6From` | host/src/tcp.rs:194-203 | port, flow info, scope id and segments preserved |
| `HostTcp.SocketAddrFrom` | host/src/tcp.rs:179-186 | `Ipv4` becomes `V4` and `Ipv6` becomes `V6`; the port is preserved |
| `HostTcp.AddressFamilyFrom` | host/src/tcp.rs:215-222 | `Ipv4` maps to `INET` and `Ipv6` to `INET6` |
| `HostTcp.SocketAddrRoundTrip` | host/src/tcp.rs:179-213 | converting to the host and back gives the guest address |
| `HostTcp.SocketAddrOnto` | host/src/tcp.rs:179-213 | every host address is the conversion of some guest address |
| `HostTcp.SocketAddrFromInjective` | host/src/tcp.rs:179-213 | distinct guest addresses give distinct host addresses |
| `HostTcp.AddressFamilyFromBijective` | host/src/tcp.rs:215-222 | the family conversion is a bijection |
| `HostTcp.ConvertedAddressFamily` | host/src/tcp.rs:179-222 | a converted address has the family its guest family converts to |
| `Macros.EprintU32Impl` | src/macros.rs:47-54 | empty exactly for 0; every byte is a decimal digit `b'0' + d` |
| `Macros.EprintU32` | src/macros.rs:40-46 | 0 prints as exactly `"0"`; the output is never empty and is all digits |
| `Macros.EprintU32RoundTrip` | src/macros.rs:40-55 | reading the printed digits back in base 10 gives the number |
| `Macros.EprintU32NoLeadingZero` | src/macros.rs:44-54 | a positive number prints without a leading zero |
| `Macros.EprintU32AtMostTenDigits` | src/macros.rs:47-54 | a `u32` prints as at most 10 digits |
| `Macros.UnreachableOutput` | src/macros.rs:65-71 | the output starts with `unreachable executed at line `, ends with `: `, the message and a newline, and between them holds 1 to 10 decimal digits, without a leading zero, that read back as the line number; with the `command` feature it prints nothing |
| `Macros.Assert` | src/macros.rs:74-81 | traps exactly when the condition is false; prints nothing when it holds, otherwise the "assertion failed" report |
| `Macros.AssertEq` | src/macros.rs:83-88 | traps exactly when the operands differ; identical to `assert!(a == b)` |

## Findings

| source | as written | input that shows it | evidently intended | confidence | as-written member | corrected member |
|---|---|---|---|---|---|---|
| wasi-common/cap-std-sync/src/net.rs:620-621 | when `src.pollable_read()` is `None`, `splice` calls `OutputStream::splice(self, src, nelem)`, which for a `TcpSocket` is this same method with the same arguments | any source stream without a pollable read handle, any `nelem` | fall back to a generic copy through the source's own reads | not executed; high (the qualified call resolves to the overriding impl) | `Streams.SpliceWithoutPollableSourceNeverReturns` | `Streams.Splice` |

## Left out

- `bind`, `connect`, `listen` and `accept` are left out: their bodies are `todo!()` (net.rs:245-262). So are the whole `start_*`/`finish_*` two-phase protocol and every method of the host `tcp`, `tcp_create_socket`, `udp` and `ip_name_lookup` bindings, which are `todo!()` stubs too.
- The `From<TcpListener>`, `From<TcpStream>` and `From<Socket>` conversions are left out: they have `todo!()` networks or no body at all.
- The `Arc<RwLock<..>>` sharing, `clone`, `for_reading` and `for_writing` are left out; the model has one sequential owner.
- The `async_trait` machinery is left out.
- The native socket is abstract. Whether each native call succeeds is a parameter, and so is every count it returns. The bytes that reads, peeks and copies move are not modelled; only their counts are.
- The modelled OS rules are limited. Off Linux, the OS stores a buffer size as given. On Linux it reports the doubled size. Linux's minimum and maximum buffer sizes are not modelled.
- The `u8::try_from(..).unwrap()` in `unicast_hop_limit` is a precondition, not a panic. So is the `usize::try_from(..).unwrap()` in the buffer setters.
- The `WasiNetwork` capability is an opaque `NetworkRef`. `Network::new` and its `Pool` are not modelled.
- `sock_send`, `num_ready_bytes` and `set_nonblocking` are left out: each returns the native call's result (a count, or unit) with its error passed on.
- `Udp.RecvDispatch`: `RiFlags` is a `bitflags` type whose definition is not part of this model. The test at net.rs:467 is read as a test over raw 16-bit patterns, so `Udp.Unsupported` can hold for bit patterns that a `RiFlags` value, which keeps only known flags, could never carry.
- Handle plumbing is left out: `pollable`, `pollable_read`, `pollable_write`, `AsFd`, `AsSocket`, `AsHandleOrSocket` and `is_read_write`. The Windows impls name variants that do not exist.
- `Streams.MapReadOutcome`: the `n as u64` at net.rs:538 and 549 is modelled as lossless; the requires clause demands that the count fits a `u64`. The same holds for `Streams.Read` and `Streams.ReadVectored`.
- `Udp.SockRecv`: the `n as u64` conversions are modelled as lossless. The requires clause demands that the buffers' total fits a `u64`, as it does for buffers in 64-bit memory.
- `puts` is left out as a console call: the model records the bytes handed to it, concatenated. So are the `eprint!`/`eprintln!` string-literal expansion and the build script.
- The no-argument `unreachable!()` (src/macros.rs:59-63) is left out: it prints only the prefix and the line number, with no `": "`, message or newline, and then traps like the one-argument form.
- `Macros.UnreachableOutput`: the final `wasm32::unreachable()` trap is the `trapped` flag of `Macros.Effect`, not a modelled instruction.
