/** The conversions from the guest's (WIT) socket-address values to the host's.
    Each is a field-by-field copy; the inverse conversions below are not part of
    the host code and serve as the reference the copies are checked against. */
module HostTcp {
  import opened Base
  import opened Network

  /** WIT `ipv4-address`: a tuple of four octets. */
  datatype Ipv4Address = Ipv4Address(o0: u8, o1: u8, o2: u8, o3: u8)

  /** WIT `ipv6-address`: a tuple of eight 16-bit segments. */
  datatype Ipv6Address = Ipv6Address(s0: u16, s1: u16, s2: u16, s3: u16, s4: u16, s5: u16, s6: u16, s7: u16)

  datatype Ipv4SocketAddress = Ipv4SocketAddress(port: u16, address: Ipv4Address)

  datatype Ipv6SocketAddress = Ipv6SocketAddress(port: u16, flowInfo: u32, address: Ipv6Address, scopeId: u32)

  datatype IpSocketAddress = Ipv4(v4: Ipv4SocketAddress) | Ipv6(v6: Ipv6SocketAddress)

  datatype IpAddressFamily = Ipv4Family | Ipv6Family

  /** `convert_ipv4_addr`: the octets in the same order. */
  function ConvertIpv4Addr(addr: Ipv4Address): (r: Ipv4Addr)
    ensures r.Octets() == [addr.o0, addr.o1, addr.o2, addr.o3]
  {
    Ipv4Addr(addr.o0, addr.o1, addr.o2, addr.o3)
  }

  /** `convert_ipv6_addr`: the segments in the same order. */
  function ConvertIpv6Addr(addr: Ipv6Address): (r: Ipv6Addr)
    ensures r.Segments() == [addr.s0, addr.s1, addr.s2, addr.s3, addr.s4, addr.s5, addr.s6, addr.s7]
  {
    Ipv6Addr(addr.s0, addr.s1, addr.s2, addr.s3, addr.s4, addr.s5, addr.s6, addr.s7)
  }

  /** `From<Ipv4SocketAddress> for SocketAddrV4`. */
  function SocketAddrV4From(addr: Ipv4SocketAddress): (r: SocketAddrV4)
    ensures r.port == addr.port
    ensures r.ip.Octets() == [addr.address.o0, addr.address.o1, addr.address.o2, addr.address.o3]
  {
    SocketAddrV4(ConvertIpv4Addr(addr.address), addr.port)
  }

  /** `From<Ipv6SocketAddress> for SocketAddrV6`. */
  function SocketAddrV6From(addr: Ipv6SocketAddress): (r: SocketAddrV6)
    ensures r.port == addr.port && r.flowinfo == addr.flowInfo && r.scopeId == addr.scopeId
    ensures r.ip.Segments() == [addr.address.s0, addr.address.s1, addr.address.s2, addr.address.s3,
                                addr.address.s4, addr.address.s5, addr.address.s6, addr.address.s7]
  {
    SocketAddrV6(ConvertIpv6Addr(addr.address), addr.port, addr.flowInfo, addr.scopeId)
  }

  /** `From<IpSocketAddress> for SocketAddr`: the IP version is kept. */
  function SocketAddrFrom(addr: IpSocketAddress): (r: SocketAddr)
    ensures r.V4? <==> addr.Ipv4?
    ensures FamilyOf(r) == if addr.Ipv4? then INET else INET6
    ensures r.Port() == if addr.Ipv4? then addr.v4.port else addr.v6.port
  {
    match addr
    case Ipv4(v4) => V4(SocketAddrV4From(v4))
    case Ipv6(v6) => V6(SocketAddrV6From(v6))
  }

  /** `From<IpAddressFamily> for AddressFamily`. */
  function AddressFamilyFrom(family: IpAddressFamily): (r: AddressFamily)
    ensures r == INET <==> family == Ipv4Family
  {
    match family
    case Ipv4Family => INET
    case Ipv6Family => INET6
  }

  // ---------------------------------------------------------------------------
  // Reference inverses
  // ---------------------------------------------------------------------------

  function GuestSocketAddr(addr: SocketAddr): IpSocketAddress {
    match addr
    case V4(a) => Ipv4(Ipv4SocketAddress(a.port, Ipv4Address(a.ip.a, a.ip.b, a.ip.c, a.ip.d)))
    case V6(a) =>
      Ipv6(Ipv6SocketAddress(a.port, a.flowinfo,
                             Ipv6Address(a.ip.s0, a.ip.s1, a.ip.s2, a.ip.s3, a.ip.s4, a.ip.s5, a.ip.s6, a.ip.s7),
                             a.scopeId))
  }

  function GuestAddressFamily(family: AddressFamily): IpAddressFamily {
    match family
    case INET => Ipv4Family
    case INET6 => Ipv6Family
  }

  /** Converting a guest address to a host one and back gives the guest address. */
  lemma SocketAddrRoundTrip(addr: IpSocketAddress)
    ensures GuestSocketAddr(SocketAddrFrom(addr)) == addr
  {
  }

  /** Every host address is the conversion of exactly one guest address. */
  lemma SocketAddrOnto(addr: SocketAddr)
    ensures SocketAddrFrom(GuestSocketAddr(addr)) == addr
  {
  }

  /** Distinct guest addresses give distinct host addresses. */
  lemma SocketAddrFromInjective(a: IpSocketAddress, b: IpSocketAddress)
    ensures SocketAddrFrom(a) == SocketAddrFrom(b) ==> a == b
  {
    SocketAddrRoundTrip(a);
    SocketAddrRoundTrip(b);
  }

  /** The family conversion is a bijection. */
  lemma AddressFamilyFromBijective(family: IpAddressFamily, host: AddressFamily)
    ensures GuestAddressFamily(AddressFamilyFrom(family)) == family
    ensures AddressFamilyFrom(GuestAddressFamily(host)) == host
  {
  }

  /** A converted address belongs to the family its guest family converts to. */
  lemma ConvertedAddressFamily(addr: IpSocketAddress)
    ensures FamilyOf(SocketAddrFrom(addr))
         == AddressFamilyFrom(if addr.Ipv4? then Ipv4Family else Ipv6Family)
  {
  }
}
