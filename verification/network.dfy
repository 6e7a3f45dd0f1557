/** The shared vocabulary of IP networking: address families, the closed
    `NetworkError` taxonomy, the host's socket-address values, and the conditions
    under which the address-related errors apply. */
module Network {
  import opened Base

  /** `AF_INET` (IPv4) or `AF_INET6` (IPv6); there is no third family. */
  datatype AddressFamily = INET | INET6

  /** Every error a socket operation can report. Closed: no other value exists. */
  datatype NetworkError =
    | Unknown
    | AccessDenied
    | NotSupported
    | OutOfMemory
    | Timeout
    | ConcurrencyConflict
    | NotInProgress
    | WouldBlock
      // IP errors
    | AddressFamilyNotSupported
    | AddressFamilyMismatch
    | InvalidRemoteAddress
    | Ipv4OnlyOperation
    | Ipv6OnlyOperation
      // TCP and UDP socket errors
    | NewSocketLimit
    | AlreadyAttached
    | AlreadyBound
    | AlreadyConnected
    | NotBound
    | NotConnected
    | AddressNotBindable
    | AddressInUse
    | EphemeralPortsExhausted
    | RemoteUnreachable
      // TCP socket errors
    | AlreadyListening
    | NotListening
    | ConnectionRefused
    | ConnectionReset
      // UDP socket errors
    | DatagramTooLarge
      // name lookup errors
    | InvalidName
    | NameUnresolvable
    | TemporaryResolverFailure
    | PermanentResolverFailure

  /** The host's IPv4 address `a.b.c.d`. */
  datatype Ipv4Addr = Ipv4Addr(a: u8, b: u8, c: u8, d: u8) {
    function Octets(): seq<u8> {
      [a, b, c, d]
    }
  }

  /** The host's IPv6 address, as eight 16-bit segments. */
  datatype Ipv6Addr = Ipv6Addr(s0: u16, s1: u16, s2: u16, s3: u16, s4: u16, s5: u16, s6: u16, s7: u16) {
    function Segments(): seq<u16> {
      [s0, s1, s2, s3, s4, s5, s6, s7]
    }
  }

  datatype SocketAddrV4 = SocketAddrV4(ip: Ipv4Addr, port: u16)

  datatype SocketAddrV6 = SocketAddrV6(ip: Ipv6Addr, port: u16, flowinfo: u32, scopeId: u32)

  /** The host's socket address: an IPv4 or an IPv6 one. */
  datatype SocketAddr = V4(v4: SocketAddrV4) | V6(v6: SocketAddrV6) {
    function Port(): u16 {
      match this
      case V4(a) => a.port
      case V6(a) => a.port
    }
  }

  /** The family an address belongs to. */
  function FamilyOf(addr: SocketAddr): AddressFamily {
    match addr
    case V4(_) => INET
    case V6(_) => INET6
  }

  /** The wildcard address: `0.0.0.0` (`INADDR_ANY`) or `::`. */
  predicate IsUnspecified(addr: SocketAddr) {
    match addr
    case V4(a) => a.ip.Octets() == [0, 0, 0, 0]
    case V6(a) => a.ip.Segments() == [0, 0, 0, 0, 0, 0, 0, 0]
  }

  /** When `InvalidRemoteAddress` applies: the IP is the wildcard or the port is
      0. So an address is a valid remote address exactly when it names a
      specific host and a nonzero port. */
  predicate IsInvalidRemoteAddress(addr: SocketAddr): (b: bool)
    ensures !b <==> addr.Port() != 0 && match addr
                                        case V4(a) => a.ip != Ipv4Addr(0, 0, 0, 0)
                                        case V6(a) => a.ip != Ipv6Addr(0, 0, 0, 0, 0, 0, 0, 0)
  {
    IsUnspecified(addr) || addr.Port() == 0
  }

  /** When `AddressFamilyMismatch` applies: the address is not of the resource's
      family, that is, an IPv4 address given to an IPv6 resource or the reverse. */
  predicate IsAddressFamilyMismatch(addr: SocketAddr, family: AddressFamily): (b: bool)
    ensures b <==> (addr.V4? && family == INET6) || (addr.V6? && family == INET)
  {
    FamilyOf(addr) != family
  }

  /** When `Ipv6OnlyOperation` applies: the resource is an IPv4 one. */
  predicate IsIpv6OnlyViolation(family: AddressFamily): (b: bool)
    ensures b <==> family == INET
  {
    family != INET6
  }
}
