/** What the packet plane reads from a raw layer-3 packet (src/tun/mod.rs:319-359). */
module PacketHeaders {
  import opened Net
  import opened Arith
  import opened HubIndex

  type Packet = seq<byte>

  predicate IsV4(pkt: Packet) {
    |pkt| >= 20 && pkt[0] / 16 == 4
  }

  predicate IsV6(pkt: Packet) {
    |pkt| >= 40 && pkt[0] / 16 == 6
  }

  function Ip4At(pkt: Packet, at: nat): Ip4
    requires at + 4 <= |pkt|
  {
    PowersOf256();
    FromBE(pkt[at..at + 4])
  }

  function Ip6At(pkt: Packet, at: nat): Ip6
    requires at + 16 <= |pkt|
  {
    PowersOf256();
    FromBE(pkt[at..at + 16])
  }

  function Ipv4Src(pkt: Packet): Option<Ip4> {
    if IsV4(pkt) then Some(Ip4At(pkt, 12)) else None
  }

  function Ipv4Dst(pkt: Packet): Option<Ip4> {
    if IsV4(pkt) then Some(Ip4At(pkt, 16)) else None
  }

  function Ipv6Src(pkt: Packet): Option<Ip6> {
    if IsV6(pkt) then Some(Ip6At(pkt, 8)) else None
  }

  function Ipv6Dst(pkt: Packet): Option<Ip6> {
    if IsV6(pkt) then Some(Ip6At(pkt, 24)) else None
  }

  /** The packet is for an address of the mesh. */
  predicate DstInMesh(pkt: Packet) {
    if Ipv4Dst(pkt).Some? then VipInMesh(Ipv4Dst(pkt).value)
    else Ipv6Dst(pkt).Some? && Vip6InMesh(Ipv6Dst(pkt).value)
  }

  /** The packet's destination is one of these addresses: `packet_is_own`, `packet_destined_here`. */
  predicate DestinedTo(pkt: Packet, vips: Vips) {
    if Ipv4Dst(pkt).Some? then Ipv4Dst(pkt).value == vips.v4
    else if Ipv6Dst(pkt).Some? then Ipv6Dst(pkt).value == vips.v6
    else false
  }

  /** The packet's source is one of these addresses: `packet_src_matches_peer`. */
  predicate ComesFrom(pkt: Packet, vips: Vips) {
    if Ipv4Src(pkt).Some? then Ipv4Src(pkt).value == vips.v4
    else if Ipv6Src(pkt).Some? then Ipv6Src(pkt).value == vips.v6
    else false
  }

  // ---------------------------------------------------------------- where the addresses stand

  lemma TakeMiddle(a: seq<byte>, b: seq<byte>, c: seq<byte>)
    ensures (a + b + c)[|a|..|a| + |b|] == b
  {
  }

  /** An IPv4 header: version in the first four bits, source behind 12 bytes, destination behind 16. */
  lemma V4Reads(head: seq<byte>, src: Ip4, dst: Ip4, rest: seq<byte>)
    requires |head| == 12 && head[0] / 16 == 4
    ensures var pkt := head + BE4(src) + BE4(dst) + rest;
            Ipv4Src(pkt) == Some(src) && Ipv4Dst(pkt) == Some(dst) && Ipv6Src(pkt) == None && Ipv6Dst(pkt) == None
  {
    var pkt := head + BE4(src) + BE4(dst) + rest;
    TakeMiddle(head, BE4(src), BE4(dst) + rest);
    assert pkt == head + BE4(src) + (BE4(dst) + rest);
    TakeMiddle(head + BE4(src), BE4(dst), rest);
  }

  /** An IPv6 header: source behind 8 bytes, destination behind 24. */
  lemma V6Reads(head: seq<byte>, src: Ip6, dst: Ip6, rest: seq<byte>)
    requires |head| == 8 && head[0] / 16 == 6
    ensures var pkt := head + BE16(src) + BE16(dst) + rest;
            Ipv6Src(pkt) == Some(src) && Ipv6Dst(pkt) == Some(dst) && Ipv4Src(pkt) == None && Ipv4Dst(pkt) == None
  {
    var pkt := head + BE16(src) + BE16(dst) + rest;
    TakeMiddle(head, BE16(src), BE16(dst) + rest);
    assert pkt == head + BE16(src) + (BE16(dst) + rest);
    TakeMiddle(head + BE16(src), BE16(dst), rest);
  }

  /** Nothing is read from a packet without a whole header of its version. */
  lemma ShortReadsNothing(pkt: Packet)
    requires |pkt| > 0 ==> (pkt[0] / 16 == 4 ==> |pkt| < 20) && (pkt[0] / 16 == 6 ==> |pkt| < 40)
    ensures Ipv4Src(pkt) == None && Ipv4Dst(pkt) == None && Ipv6Src(pkt) == None && Ipv6Dst(pkt) == None
    ensures !DstInMesh(pkt) && forall vips :: !DestinedTo(pkt, vips) && !ComesFrom(pkt, vips)
  {
  }

  /** The first n - k bytes of a big-endian number spell it without its last k. */
  lemma {:induction false} TopOfBE(n: nat, k: nat, x: nat, top: nat)
    requires k <= n && x < Pow256(n) && top == x / Pow256(k)
    ensures top < Pow256(n - k) && BE(n, x)[..n - k] == BE(n - k, top)
  {
    if k > 0 {
      DivDiv(x, 0x100, Pow256(k - 1));
      TopOfBE(n - 1, k - 1, x / 0x100, top);
      assert BE(n, x)[..n - 1] == BE(n - 1, x / 0x100);
      assert BE(n, x)[..n - k] == BE(n, x)[..n - 1][..n - k];
    }
  }

  lemma SameSpelling(n: nat, x: nat, y: nat)
    requires x < Pow256(n) && y < Pow256(n)
    ensures BE(n, x) == BE(n, y) <==> x == y
  {
    FromBEofBE(n, x);
    FromBEofBE(n, y);
  }

  /** The mesh is 172.24.0.0/16 and fd24:ac18::/64, octet by octet. */
  lemma MeshOctets(v4: Ip4, v6: Ip6)
    ensures VipInMesh(v4) <==> BE4(v4)[..2] == [172, 24]
    ensures Vip6InMesh(v6) <==> BE16(v6)[..8] == [0xFD, 0x24, 0xAC, 0x18, 0, 0, 0, 0]
  {
    PowersOf256();
    Pow256Add(4, 4);
    TopOfBE(4, 2, v4, v4 / 0x1_0000);
    TopOfBE(16, 8, v6, v6 / 0x1_0000_0000_0000_0000);
    SameSpelling(2, v4 / 0x1_0000, 0xAC18);
    SameSpelling(8, v6 / 0x1_0000_0000_0000_0000, 0xFD24_AC18_0000_0000);
    MeshSpelt();
  }

  lemma MeshSpelt()
    ensures Pow256(2) == 0x1_0000 && Pow256(8) == 0x1_0000_0000_0000_0000
    ensures BE(2, 0xAC18) == [172, 24]
    ensures BE(8, 0xFD24_AC18_0000_0000) == [0xFD, 0x24, 0xAC, 0x18, 0, 0, 0, 0]
  {
    PowersOf256();
    Pow256Add(4, 4);
    PrefixSpelt();
    assert BE(2, 0xAC18) == [0xAC, 0x18];
    assert BE(6, 0xFD24_AC18_0000) == BE(4, 0xFD24_AC18) + [0, 0];
    assert BE(8, 0xFD24_AC18_0000_0000) == BE(6, 0xFD24_AC18_0000) + [0, 0];
  }

  lemma PrefixSpelt()
    ensures BE(4, 0xFD24_AC18) == [0xFD, 0x24, 0xAC, 0x18]
  {
    PowersOf256();
    assert BE(2, 0xFD24) == [0xFD, 0x24];
    assert BE(4, 0xFD24_AC18) == BE(2, 0xFD24) + [0xAC, 0x18];
  }
}
