/** FRR's `struct nexthop` (its type and gateway union) and the nexthop
    group pointer that the route descriptor keeps. */
module Nexthops {
  import opened Prefixes

  /** The nexthop types the handlers write; NexthopTypeUnset is the 0 that
      memset leaves, which names no real type. */
  datatype NexthopType = NexthopTypeUnset | NexthopTypeIpv4 | NexthopTypeIpv6

  /** `struct nexthop`: the type and the gateway union `gate`, whose IPv4
      member occupies the first four bytes and whose IPv6 member all
      sixteen. */
  datatype Nexthop = Nexthop(ntype: NexthopType, gate: In6Addr)

  /** A `struct nexthop` after memset(&nh, 0, sizeof(nh)). */
  const ZeroNexthop: Nexthop := Nexthop(NexthopTypeUnset, Zeros(16))

  /** The gateway a nexthop forwards to, read back through its type. */
  datatype Gateway = Gw4(a4: InAddr) | Gw6(a6: In6Addr) | NoGateway

  function GatewayOf(n: Nexthop): Gateway
  {
    match n.ntype
    case NexthopTypeIpv4 => Gw4(n.gate[..4])
    case NexthopTypeIpv6 => Gw6(n.gate)
    case NexthopTypeUnset => NoGateway
  }

  /** Writing a single gateway into a zeroed nexthop: an IPv4 gateway when
      the IPv4 address is not INADDR_ANY, otherwise the IPv6 one. */
  function GatewayNexthop(nexthop4: InAddr, nexthop6: In6Addr): (n: Nexthop)
    ensures n.ntype != NexthopTypeUnset
    ensures n.ntype == NexthopTypeIpv4 <==> nexthop4 != INADDR_ANY
    ensures GatewayOf(n) == if nexthop4 != INADDR_ANY then Gw4(nexthop4) else Gw6(nexthop6)
    ensures n.ntype == NexthopTypeIpv4 ==> n.gate[4..] == Zeros(12)
  {
    if nexthop4 != INADDR_ANY then Nexthop(NexthopTypeIpv4, nexthop4 + Zeros(12))
    else Nexthop(NexthopTypeIpv6, nexthop6)
  }

  /** `struct nexthop_group`'s head pointer, as a tagged variant rather than
      a raw pointer: NULL after memset, the descriptor's own `nhop`, or the
      nexthop list of a configured nexthop-group. */
  datatype GroupRef = NullGroup | OwnNexthop | Registered(nexthops: seq<Nexthop>)

  /** The nexthops a group pointer reaches, given the descriptor's own
      nexthop `own` that OwnNexthop aliases. */
  function GroupNexthops(g: GroupRef, own: Nexthop): seq<Nexthop>
  {
    match g
    case NullGroup => []
    case OwnNexthop => [own]
    case Registered(list) => list
  }
}
