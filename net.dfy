/**
 * IP addresses and the classification predicates of Rust's `std::net` that the core calls
 * (`is_loopback`, `is_unspecified`, `is_multicast`, `to_ipv4_mapped`).
 */
module Net {
  import opened Wrappers

  newtype u8 = x: int | 0 <= x < 0x100
  newtype u16 = x: int | 0 <= x < 0x1_0000

  type Segments = s: seq<u16> | |s| == 8 witness [0, 0, 0, 0, 0, 0, 0, 0]

  /** `IpAddr`: an IPv4 address as four octets, an IPv6 address as eight 16-bit segments. */
  datatype IpAddr = V4(a: u8, b: u8, c: u8, d: u8) | V6(segments: Segments)

  /**
   * `x & mask` for a mask made of high one-bits followed by zero-bits worth `unit`
   * (`0xff00` is `unit == 0x100`, `0xfe00` is `unit == 0x200`, `0xffc0` is `unit == 0x40`).
   */
  function MaskHigh(x: u16, unit: nat): int
    requires unit > 0
  {
    x as int / unit * unit
  }

  predicate IsLoopback(ip: IpAddr) {
    match ip
    case V4(a, _, _, _) => a == 127
    case V6(s) => s == [0, 0, 0, 0, 0, 0, 0, 1]
  }

  predicate IsUnspecified(ip: IpAddr) {
    match ip
    case V4(a, b, c, d) => a == 0 && b == 0 && c == 0 && d == 0
    case V6(s) => s == [0, 0, 0, 0, 0, 0, 0, 0]
  }

  predicate IsMulticast(ip: IpAddr) {
    match ip
    case V4(a, _, _, _) => 224 <= a <= 239
    case V6(s) => MaskHigh(s[0], 0x100) == 0xff00
  }

  /** The IPv6 form `::ffff:a.b.c.d` of an IPv4 address. */
  function MapV4(a: u8, b: u8, c: u8, d: u8): IpAddr {
    V6([0, 0, 0, 0, 0, 0xffff, (a as int * 0x100 + b as int) as u16, (c as int * 0x100 + d as int) as u16])
  }

  /** `Ipv6Addr::to_ipv4_mapped`. */
  function ToIpv4Mapped(s: Segments): (r: Option<IpAddr>)
    ensures r.Some? ==> r.value.V4? && MapV4(r.value.a, r.value.b, r.value.c, r.value.d) == V6(s)
  {
    if s[..6] == [0, 0, 0, 0, 0, 0xffff] then
      var v4 := V4((s[6] as int / 0x100) as u8, (s[6] as int % 0x100) as u8, (s[7] as int / 0x100) as u8, (s[7] as int % 0x100) as u8);
      assert s == s[..6] + [s[6], s[7]];
      assert (s[6] as int / 0x100) * 0x100 + s[6] as int % 0x100 == s[6] as int;
      assert (s[7] as int / 0x100) * 0x100 + s[7] as int % 0x100 == s[7] as int;
      assert MapV4(v4.a, v4.b, v4.c, v4.d).segments == s;
      Some(v4)
    else None
  }

  lemma MappedRoundTrip(a: u8, b: u8, c: u8, d: u8)
    ensures ToIpv4Mapped(MapV4(a, b, c, d).segments) == Some(V4(a, b, c, d))
  {
    var s := MapV4(a, b, c, d).segments;
    assert s[..6] == [0, 0, 0, 0, 0, 0xffff];
  }
}
