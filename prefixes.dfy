/** Bytes, IPv4/IPv6 addresses and FRR's `struct prefix`, at the level the
    vty handlers touch them: a family tag, a prefix length and the address
    union, which the handlers always clear with memset before writing. */
module Prefixes {

  newtype uint8 = x: int | 0 <= x < 256

  /** The bytes memset(…, 0, n) leaves behind. */
  function Zeros(n: nat): (z: seq<uint8>)
    ensures |z| == n
    ensures forall i :: 0 <= i < n ==> z[i] == 0
  {
    if n == 0 then [] else Zeros(n - 1) + [0]
  }

  /** `struct in_addr`: four bytes in network order. */
  type InAddr = a: seq<uint8> | |a| == 4 witness [0, 0, 0, 0]

  /** `struct in6_addr`: sixteen bytes in network order. */
  type In6Addr = a: seq<uint8> | |a| == 16
    witness [0, 0, 0, 0, 0, 0, 0, 0, 0, 0, 0, 0, 0, 0, 0, 0]

  /** INADDR_ANY, the all-zero IPv4 address (s_addr == 0). */
  const INADDR_ANY: InAddr := [0, 0, 0, 0]

  const IN6ADDR_ANY: In6Addr := Zeros(16)

  /** Address families; AfUnspec is the 0 that memset leaves. */
  datatype Family = AfUnspec | AfInet | AfInet6

  /** `struct prefix`: family, prefixlen and the address union `u`, of which
      the IPv4 member occupies the first four bytes and the IPv6 member all
      sixteen. */
  datatype Prefix = Prefix(family: Family, prefixlen: nat, u: In6Addr)

  /** A `struct prefix` after memset(&p, 0, sizeof(p)). */
  const ZeroPrefix: Prefix := Prefix(AfUnspec, 0, Zeros(16))

  /** The IPv4 address a family-INET prefix carries. */
  function Addr4(p: Prefix): InAddr
    requires p.family == AfInet
  {
    p.u[..4]
  }

  /** The IPv6 address a family-INET6 prefix carries. */
  function Addr6(p: Prefix): In6Addr
    requires p.family == AfInet6
  {
    p.u
  }

  /** A host prefix: /32 for IPv4 with the rest of the union still zero,
      /128 for IPv6. */
  predicate IsHostPrefix(p: Prefix)
  {
    (p.family == AfInet && p.prefixlen == 32 && p.u[4..] == Zeros(12)) ||
    (p.family == AfInet6 && p.prefixlen == 128)
  }

  /** A zeroed prefix with family INET, length 32 and `u.prefix4 = a`. */
  function HostPrefix4(a: InAddr): (p: Prefix)
    ensures IsHostPrefix(p) && p.family == AfInet
    ensures Addr4(p) == a
  {
    Prefix(AfInet, 32, a + Zeros(12))
  }

  /** A zeroed prefix with family INET6, length 128 and `u.prefix6 = a`. */
  function HostPrefix6(a: In6Addr): (p: Prefix)
    ensures IsHostPrefix(p) && p.family == AfInet6
    ensures Addr6(p) == a
  {
    Prefix(AfInet6, 128, a)
  }

  /** A host prefix is determined by its family and address: the two
      builders above are the only way to reach one, and they are inverted
      by Addr4 and Addr6. */
  lemma HostPrefixDeterminedByAddress(p: Prefix)
    requires IsHostPrefix(p)
    ensures p.family == AfInet ==> p == HostPrefix4(Addr4(p))
    ensures p.family == AfInet6 ==> p == HostPrefix6(Addr6(p))
  {
  }

  /** The start prefix of a route run: the IPv4 host prefix when the IPv4
      start address is not all-zero, otherwise the IPv6 host prefix. */
  function StartPrefix(start4: InAddr, start6: In6Addr): (p: Prefix)
    ensures IsHostPrefix(p)
    ensures p.family == AfInet <==> start4 != INADDR_ANY
    ensures p.family == AfInet ==> Addr4(p) == start4
    ensures p.family != AfInet ==> p.family == AfInet6 && Addr6(p) == start6
  {
    if start4 != INADDR_ANY then HostPrefix4(start4) else HostPrefix6(start6)
  }

  /** An all-zero IPv4 start address (0.0.0.0) is taken for "no IPv4 start
      given", so the run starts at the IPv6 address instead, whatever was
      typed. */
  lemma ZeroStart4MeansIpv6(start6: In6Addr)
    ensures StartPrefix(INADDR_ANY, start6) == HostPrefix6(start6)
  {
  }
}
