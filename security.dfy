/**
 * The outbound-address filter of riley-cms-core (`security::is_safe_ip`): the addresses a webhook
 * may be sent to. Lemmas restate the predicate as the list of blocked CIDR ranges it stands for.
 */
module Security {
  import opened Wrappers
  import opened Net

  function Rank(ip: IpAddr): nat { if ip.V6? then 1 else 0 }

  /** riley-cms-core's `is_safe_ip`. */
  predicate IsSafeIp(ip: IpAddr)
    decreases Rank(ip)
  {
    if IsLoopback(ip) || IsUnspecified(ip) || IsMulticast(ip) then false
    else match ip
      case V4(a, b, _, _) =>
        !(a == 10)
        && !(a == 172 && 16 <= b <= 31)
        && !(a == 192 && b == 168)
        && !(a == 169 && b == 254)
        && !(a == 100 && 64 <= b <= 127)
      case V6(s) =>
        match ToIpv4Mapped(s)
        case Some(v4) => IsSafeIp(v4)
        case None =>
          !(MaskHigh(s[0], 0x200) == 0xfc00)
          && !(MaskHigh(s[0], 0x40) == 0xfe80)
          && !(MaskHigh(s[0], 0x40) == 0xfec0)
  }

  /** The 32-bit value of an IPv4 address. */
  function V4Value(a: u8, b: u8, c: u8, d: u8): (v: int)
    ensures 0 <= v < 0x1_0000_0000
  {
    a as int * 0x100_0000 + b as int * 0x1_0000 + c as int * 0x100 + d as int
  }

  /** `v` lies in the IPv4 network `a.b.0.0/prefix` (prefix at most 16). */
  predicate InNet4(v: int, a: int, b: int, size: int) {
    var lo := a * 0x100_0000 + b * 0x1_0000;
    lo <= v < lo + size
  }

  /** The IPv4 ranges riley-cms-core refuses, by network and prefix length. */
  predicate BlockedV4(v: int) {
    v == 0                                   // 0.0.0.0/32 unspecified
    || InNet4(v, 10, 0, 0x100_0000)          // 10.0.0.0/8
    || InNet4(v, 100, 64, 0x40_0000)         // 100.64.0.0/10
    || InNet4(v, 127, 0, 0x100_0000)         // 127.0.0.0/8
    || InNet4(v, 169, 254, 0x1_0000)         // 169.254.0.0/16
    || InNet4(v, 172, 16, 0x10_0000)         // 172.16.0.0/12
    || InNet4(v, 192, 168, 0x1_0000)         // 192.168.0.0/16
    || InNet4(v, 224, 0, 0x1000_0000)        // 224.0.0.0/4
  }

  lemma SafeV4MatchesRanges(a: u8, b: u8, c: u8, d: u8)
    ensures IsSafeIp(V4(a, b, c, d)) <==> !BlockedV4(V4Value(a, b, c, d))
  {
  }

  /** The IPv6 ranges refused by the first segment: fc00::/7, fe80::/10, fec0::/10 and ff00::/8. */
  predicate BlockedV6First(s0: u16) {
    (0xfc00 <= s0 <= 0xfdff) || (0xfe80 <= s0 <= 0xfebf) || (0xfec0 <= s0 <= 0xfeff) || 0xff00 <= s0
  }

  lemma SafeV6MatchesRanges(s: Segments)
    requires ToIpv4Mapped(s).None?
    ensures IsSafeIp(V6(s)) <==>
      !(s == [0, 0, 0, 0, 0, 0, 0, 1] || s == [0, 0, 0, 0, 0, 0, 0, 0] || BlockedV6First(s[0]))
  {
  }

  /** An IPv4-mapped IPv6 address is judged exactly as the IPv4 address it carries. */
  lemma MappedJudgedAsV4(a: u8, b: u8, c: u8, d: u8)
    ensures IsSafeIp(MapV4(a, b, c, d)) == IsSafeIp(V4(a, b, c, d))
  {
    MappedRoundTrip(a, b, c, d);
    var s := MapV4(a, b, c, d).segments;
    assert s != [0, 0, 0, 0, 0, 0, 0, 1] && s != [0, 0, 0, 0, 0, 0, 0, 0] by { assert s[5] == 0xffff; }
  }

  lemma MappedExamplesUnsafe()
    ensures !IsSafeIp(MapV4(127, 0, 0, 1)) && !IsSafeIp(MapV4(10, 0, 0, 1)) && !IsSafeIp(MapV4(192, 168, 1, 1))
  {
    MappedJudgedAsV4(127, 0, 0, 1);
    MappedJudgedAsV4(10, 0, 0, 1);
    MappedJudgedAsV4(192, 168, 1, 1);
  }

  lemma MappedMoreExamplesUnsafe()
    ensures !IsSafeIp(MapV4(172, 16, 0, 1)) && !IsSafeIp(MapV4(169, 254, 169, 254))
  {
    MappedJudgedAsV4(172, 16, 0, 1);
    MappedJudgedAsV4(169, 254, 169, 254);
  }

  lemma V4ExamplesUnsafe()
    ensures !IsSafeIp(V4(10, 0, 0, 1)) && !IsSafeIp(V4(192, 168, 1, 1)) && !IsSafeIp(V4(172, 16, 0, 1))
    ensures !IsSafeIp(V4(100, 64, 0, 1)) && !IsSafeIp(V4(127, 0, 0, 1)) && !IsSafeIp(V4(0, 0, 0, 0))
    ensures !IsSafeIp(V4(100, 64, 0, 0)) && !IsSafeIp(V4(100, 127, 255, 255))
  {
  }

  /** The IPv6 addresses of the unit tests: ff02::1, fec0::1, fc00::1, fd00::1, ::1 and ::. */
  const MulticastAll: IpAddr := V6([0xff02, 0, 0, 0, 0, 0, 0, 1])
  const SiteLocalOne: IpAddr := V6([0xfec0, 0, 0, 0, 0, 0, 0, 1])
  const UniqueLocalFc: IpAddr := V6([0xfc00, 0, 0, 0, 0, 0, 0, 1])
  const UniqueLocalFd: IpAddr := V6([0xfd00, 0, 0, 0, 0, 0, 0, 1])
  const LoopbackV6: IpAddr := V6([0, 0, 0, 0, 0, 0, 0, 1])
  const UnspecifiedV6: IpAddr := V6([0, 0, 0, 0, 0, 0, 0, 0])

  lemma V6ExamplesUnsafe()
    ensures !IsSafeIp(MulticastAll) && !IsSafeIp(SiteLocalOne) && !IsSafeIp(UniqueLocalFc) && !IsSafeIp(UniqueLocalFd)
  {
  }

  lemma V6SpecialExamplesUnsafe()
    ensures !IsSafeIp(LoopbackV6) && !IsSafeIp(UnspecifiedV6)
  {
  }

  /** The nineteen addresses the repository's unit tests reject. */
  lemma TestedUnsafeAddresses()
    ensures !IsSafeIp(MapV4(127, 0, 0, 1)) && !IsSafeIp(MapV4(10, 0, 0, 1)) && !IsSafeIp(MapV4(192, 168, 1, 1))
    ensures !IsSafeIp(MapV4(172, 16, 0, 1)) && !IsSafeIp(MapV4(169, 254, 169, 254))
    ensures !IsSafeIp(MulticastAll) && !IsSafeIp(SiteLocalOne)
    ensures !IsSafeIp(V4(10, 0, 0, 1)) && !IsSafeIp(V4(192, 168, 1, 1)) && !IsSafeIp(V4(172, 16, 0, 1))
    ensures !IsSafeIp(V4(100, 64, 0, 1)) && !IsSafeIp(V4(127, 0, 0, 1))
    ensures !IsSafeIp(LoopbackV6) && !IsSafeIp(V4(0, 0, 0, 0)) && !IsSafeIp(UnspecifiedV6)
    ensures !IsSafeIp(V4(100, 64, 0, 0)) && !IsSafeIp(V4(100, 127, 255, 255))
    ensures !IsSafeIp(UniqueLocalFc) && !IsSafeIp(UniqueLocalFd)
  {
    MappedExamplesUnsafe();
    MappedMoreExamplesUnsafe();
    V4ExamplesUnsafe();
    V6ExamplesUnsafe();
    V6SpecialExamplesUnsafe();
  }

  /** The addresses the repository's unit tests accept. */
  lemma TestedSafeAddresses()
    ensures IsSafeIp(V4(8, 8, 8, 8)) && IsSafeIp(V4(1, 1, 1, 1)) && IsSafeIp(V4(100, 128, 0, 0))
    ensures IsSafeIp(V6([0x2606, 0x4700, 0x4700, 0, 0, 0, 0, 0x1111]))
  {
    var s: Segments := [0x2606, 0x4700, 0x4700, 0, 0, 0, 0, 0x1111];
    assert s[..6] != [0, 0, 0, 0, 0, 0xffff] by { assert s[0] != 0; }
  }
}
