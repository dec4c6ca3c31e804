/** The two "too big" error builders of src/tun/mod.rs (RFC 792, RFC 1191, RFC 4443, RFC 8200). */
module IcmpErrors {
  import opened Net
  import opened InetSum
  import opened HubIndex
  import opened PacketHeaders

  // ---------------------------------------------------------------- IPv4

  /** IHL in bytes. */
  function HeaderLen(orig: seq<byte>): nat
    requires |orig| > 0
  {
    (orig[0] % 16) * 4
  }

  /** Unspecified, broadcast, multicast or loopback: nobody to answer. */
  predicate UnanswerableV4(src: seq<byte>)
    requires |src| == 4
  {
    src == [0, 0, 0, 0] || src == [255, 255, 255, 255] || 224 <= src[0] < 240 || src[0] == 127
  }

  function FragNeededIcmp(quote: seq<byte>, mtu: u16): seq<byte> {
    PowersOf256();
    var blank := [3, 4, 0, 0, 0, 0] + BE(2, mtu) + quote;
    Store(blank, 2, Checksum(blank))
  }

  function V4Header(total: u16, gateway: Ip4, dst: seq<byte>): seq<byte>
    requires |dst| == 4
  {
    PowersOf256();
    var blank := [0x45, 0] + BE(2, total) + [0, 0, 0, 0, 64, 1, 0, 0] + BE(4, gateway) + dst;
    Store(blank, 10, Checksum(blank))
  }

  /** `build_icmp_frag_needed`. */
  function FragNeeded(orig: seq<byte>, mtu: u16, gateway: Ip4): Option<seq<byte>> {
    if |orig| < 20 then None
    else if HeaderLen(orig) < 20 || |orig| < HeaderLen(orig) then None
    else if orig[0] / 16 != 4 then None
    else if orig[9] == 1 then None
    else if UnanswerableV4(orig[12..16]) then None
    else
      var icmp := FragNeededIcmp(orig[..Min(|orig|, HeaderLen(orig) + 8)], mtu);
      if 20 + |icmp| > 0xFFFF then None
      else Some(V4Header(20 + |icmp|, gateway, orig[12..16]) + icmp)
  }

  // ---------------------------------------------------------------- IPv6

  predicate UnanswerableV6(src: seq<byte>)
    requires |src| == 16
  {
    FromBE(src) == 0 || FromBE(src) == 1 || src[0] == 0xFF
  }

  const IPV6_MIN_MTU := 1280

  /** The pseudo-header of an ICMPv6 message (RFC 8200, section 8.1). */
  function PseudoHeader(src: seq<byte>, dst: seq<byte>, len: u32): seq<byte> {
    PowersOf256();
    src + dst + BE(4, len) + [0, 0, 0, 58]
  }

  function TooBigIcmp(quote: seq<byte>, mtu: u32, gateway: Ip6, dst: seq<byte>): seq<byte>
    requires |dst| == 16 && |quote| <= IPV6_MIN_MTU
  {
    PowersOf256();
    var blank := [2, 0, 0, 0] + BE(4, mtu) + quote;
    Store(blank, 2, Checksum(PseudoHeader(BE(16, gateway), dst, |blank|) + blank))
  }

  function V6Header(payload: u16, gateway: Ip6, dst: seq<byte>): seq<byte> {
    PowersOf256();
    [0x60, 0, 0, 0] + BE(2, payload) + [58, 64] + BE(16, gateway) + dst
  }

  /** `build_icmpv6_pkt_too_big`. */
  function PktTooBig(orig: seq<byte>, mtu: u32, gateway: Ip6): Option<seq<byte>> {
    if |orig| < 40 || orig[0] / 16 != 6 then None
    else if orig[6] == 58 then None
    else if UnanswerableV6(orig[8..24]) then None
    else
      var icmp := TooBigIcmp(orig[..Min(|orig|, IPV6_MIN_MTU - 48)], mtu, gateway, orig[8..24]);
      Some(V6Header(|icmp|, gateway, orig[8..24]) + icmp)
  }

  // ---------------------------------------------------------------- the builders, buffer by buffer

  /** The checksum of a buffer written into its field, as the builders do it. */
  method Seal(buf: seq<byte>, off: nat, covered: seq<byte>) returns (sealed: seq<byte>)
    requires off + 1 < |buf| && |covered| <= 131074
    ensures sealed == Store(buf, off, Checksum(covered))
  {
    var csum := InetChecksum(covered);
    sealed := buf[off := csum / 0x100];
    sealed := sealed[off + 1 := csum % 0x100];
  }

  /** The ICMP part of `build_icmp_frag_needed`. */
  method BuildFragNeededIcmp(quote: seq<byte>, mtu: u16) returns (icmp: seq<byte>)
    requires |quote| <= 68
    ensures icmp == FragNeededIcmp(quote, mtu)
  {
    PowersOf256();
    icmp := [3];
    icmp := icmp + [4];
    icmp := icmp + [0, 0];
    icmp := icmp + [0, 0];
    assert icmp == [3, 4, 0, 0, 0, 0];
    icmp := icmp + BE(2, mtu);
    icmp := icmp + quote;
    icmp := Seal(icmp, 2, icmp);
  }

  /** Its IP header. */
  method BuildV4Header(total: u16, gateway: Ip4, dst: seq<byte>) returns (pkt: seq<byte>)
    requires |dst| == 4
    ensures pkt == V4Header(total, gateway, dst)
  {
    PowersOf256();
    pkt := [0x45];
    pkt := pkt + [0];
    assert pkt == [0x45, 0];
    pkt := pkt + BE(2, total);
    ghost var front := pkt;
    pkt := pkt + [0, 0];
    pkt := pkt + [0, 0];
    pkt := pkt + [64];
    pkt := pkt + [1];
    pkt := pkt + [0, 0];
    assert pkt == front + [0, 0, 0, 0, 64, 1, 0, 0];
    pkt := pkt + BE(4, gateway);
    pkt := pkt + dst;
    pkt := Seal(pkt, 10, pkt);
  }

  method BuildFragNeeded(orig: seq<byte>, mtu: u16, gateway: Ip4) returns (r: Option<seq<byte>>)
    ensures r == FragNeeded(orig, mtu, gateway)
  {
    if |orig| < 20 {
      return None;
    }
    var ihl := (orig[0] % 16) * 4;
    if ihl < 20 || |orig| < ihl {
      return None;
    }
    if orig[0] / 16 != 4 || orig[9] == 1 || UnanswerableV4(orig[12..16]) {
      return None;
    }
    var icmp := BuildFragNeededIcmp(orig[..Min(|orig|, ihl + 8)], mtu);
    if 20 + |icmp| > 0xFFFF {
      return None;
    }
    var pkt := BuildV4Header(20 + |icmp|, gateway, orig[12..16]);
    r := Some(pkt + icmp);
  }

  /** The ICMPv6 part of `build_icmpv6_pkt_too_big`, summed behind the pseudo-header. */
  method BuildTooBigIcmp(quote: seq<byte>, mtu: u32, gateway: Ip6, dst: seq<byte>) returns (icmp: seq<byte>)
    requires |dst| == 16 && |quote| <= IPV6_MIN_MTU
    ensures icmp == TooBigIcmp(quote, mtu, gateway, dst)
  {
    PowersOf256();
    icmp := [2];
    icmp := icmp + [0];
    icmp := icmp + [0, 0];
    assert icmp == [2, 0, 0, 0];
    icmp := icmp + BE(4, mtu);
    icmp := icmp + quote;
    var sumBuf := BE(16, gateway);
    sumBuf := sumBuf + dst;
    sumBuf := sumBuf + BE(4, |icmp|);
    sumBuf := sumBuf + [0, 0, 0, 58];
    sumBuf := sumBuf + icmp;
    icmp := Seal(icmp, 2, sumBuf);
  }

  method BuildPktTooBig(orig: seq<byte>, mtu: u32, gateway: Ip6) returns (r: Option<seq<byte>>)
    ensures r == PktTooBig(orig, mtu, gateway)
  {
    if |orig| < 40 || orig[0] / 16 != 6 || orig[6] == 58 || UnanswerableV6(orig[8..24]) {
      return None;
    }
    PowersOf256();
    var icmp := BuildTooBigIcmp(orig[..Min(|orig|, IPV6_MIN_MTU - 48)], mtu, gateway, orig[8..24]);
    var pkt := [0x60];
    pkt := pkt + [0, 0, 0];
    assert pkt == [0x60, 0, 0, 0];
    pkt := pkt + BE(2, |icmp|);
    ghost var front := pkt;
    pkt := pkt + [58];
    pkt := pkt + [64];
    assert pkt == front + [58, 64];
    pkt := pkt + BE(16, gateway);
    pkt := pkt + orig[8..24];
    r := Some(pkt + icmp);
  }

  // ---------------------------------------------------------------- what the packets say

  lemma SelfVerifiesBehind(prefix: seq<byte>, blank: seq<byte>, off: nat)
    requires |prefix| % 2 == 0 && off % 2 == 0 && off + 1 < |blank| && blank[off] == 0 && blank[off + 1] == 0
    ensures Checksum(prefix + Store(blank, off, Checksum(prefix + blank))) == 0
  {
    var c := Checksum(prefix + blank);
    assert prefix + Store(blank, off, c) == Store(prefix + blank, |prefix| + off, c);
    SelfVerifies(prefix + blank, |prefix| + off);
  }

  lemma FragNeededIcmpSays(quote: seq<byte>, mtu: u16)
    ensures var icmp := FragNeededIcmp(quote, mtu);
            && |icmp| == 8 + |quote| && Checksum(icmp) == 0
            && icmp[0] == 3 && icmp[1] == 4 && icmp[4] == 0 && icmp[5] == 0
            && FromBE(icmp[6..8]) == mtu && icmp[8..] == quote
  {
    PowersOf256();
    var blank := [3, 4, 0, 0, 0, 0] + BE(2, mtu) + quote;
    SelfVerifies(blank, 2);
    var icmp := FragNeededIcmp(quote, mtu);
    assert icmp[6..8] == BE(2, mtu) && icmp[8..] == quote;
    FromBEofBE(2, mtu);
  }

  lemma V4HeaderVerifies(total: u16, gateway: Ip4, dst: seq<byte>)
    requires |dst| == 4
    ensures |V4Header(total, gateway, dst)| == 20 && Checksum(V4Header(total, gateway, dst)) == 0
  {
    PowersOf256();
    var blank := [0x45, 0] + BE(2, total) + [0, 0, 0, 0, 64, 1, 0, 0] + BE(4, gateway) + dst;
    assert blank[10] == 0 && blank[11] == 0;
    SelfVerifies(blank, 10);
  }

  lemma V4HeaderSays(total: u16, gateway: Ip4, dst: seq<byte>)
    requires |dst| == 4
    ensures var h := V4Header(total, gateway, dst);
            && |h| == 20 && Checksum(h) == 0 && h[0] == 0x45 && h[1] == 0 && h[4..10] == [0, 0, 0, 0, 64, 1]
            && FromBE(h[2..4]) == total && FromBE(h[12..16]) == gateway && h[16..20] == dst
  {
    PowersOf256();
    V4HeaderVerifies(total, gateway, dst);
    var h := V4Header(total, gateway, dst);
    assert h[4..10] == [0, 0, 0, 0, 64, 1];
    assert h[2..4] == BE(2, total) && h[12..16] == BE(4, gateway) && h[16..20] == dst;
    FromBEofBE(2, total);
    FromBEofBE(4, gateway);
  }

  /** An IPv4 source, as a number, that can be answered: not 0.0.0.0, not all ones, not 224/4, not 127/8. */
  predicate AnswerableIp4(src: Ip4) {
    && src != 0 && src != 0xFFFF_FFFF
    && !(0xE000_0000 <= src < 0xF000_0000)
    && !(0x7F00_0000 <= src < 0x8000_0000)
  }

  /** Not ::, not ::1 and not ff00::/8. */
  predicate AnswerableIp6(src: Ip6) {
    src != 0 && src != 1 && src < 0xFF00_0000_0000_0000_0000_0000_0000_0000
  }

  lemma FirstOctet(n: nat, x: nat)
    requires n > 0 && x < Pow256(n)
    ensures BE(n, x)[0] == x / Pow256(n - 1)
  {
    var top := x / Pow256(n - 1);
    TopOfBE(n, n - 1, x, top);
    assert BE(1, top) == BE(0, top / 0x100) + [top % 0x100];
    assert BE(n, x)[0] == BE(n, x)[..1][0];
  }

  lemma FourOctets(s: seq<byte>)
    requires |s| == 4
    ensures FromBE(s) == s[0] as int * 0x100_0000 + s[1] as int * 0x1_0000 + s[2] as int * 0x100 + s[3]
  {
    assert s[..3][..2] == s[..2] && s[..2][..1] == s[..1] && s[..1][..0] == [];
    assert FromBE(s) == FromBE(s[..3]) * 0x100 + s[3];
    assert FromBE(s[..3]) == FromBE(s[..2]) * 0x100 + s[2];
    assert FromBE(s[..2]) == FromBE(s[..1]) * 0x100 + s[1];
    assert FromBE(s[..1]) == s[0];
  }

  lemma AnswerableV4(src: seq<byte>)
    requires |src| == 4
    ensures FromBE(src) < 0x1_0000_0000 && (!UnanswerableV4(src) <==> AnswerableIp4(FromBE(src)))
  {
    FourOctets(src);
    assert src == [src[0], src[1], src[2], src[3]];
  }

  lemma AnswerableV6(src: seq<byte>)
    requires |src| == 16
    ensures FromBE(src) < 0x1_0000_0000_0000_0000_0000_0000_0000_0000
    ensures !UnanswerableV6(src) <==> AnswerableIp6(FromBE(src))
  {
    PowersOf256();
    BEofFromBE(src);
    FirstOctet(16, FromBE(src));
    Pow256Add(8, 7);
    Pow256Add(4, 4);
    Pow256Add(4, 3);
  }

  /**
   * The IPv6 builder answers exactly the packets with a whole header that are not ICMPv6 and have a source that is
   * neither ::, ::1 nor multicast.
   */
  lemma PktTooBigAnswersExactly(orig: seq<byte>, mtu: u32, gateway: Ip6)
    ensures PktTooBig(orig, mtu, gateway).Some? <==>
            && |orig| >= 40 && orig[0] / 16 == 6 && orig[6] != 58 && AnswerableIp6(Ip6At(orig, 8))
  {
    if |orig| >= 40 {
      AnswerableV6(orig[8..24]);
    }
  }

  /** A well-formed answer to an IPv4 packet: lengths, checksums, addresses, next-hop MTU and quote. */
  ghost predicate AnswersV4(p: seq<byte>, orig: seq<byte>, mtu: u16, gateway: Ip4) {
    && 36 <= |p| <= 96 && |orig| >= 20
    && p[0] == 0x45 && p[1] == 0 && p[4..10] == [0, 0, 0, 0, 64, 1]
    && FromBE(p[2..4]) == |p|
    && Checksum(p[..20]) == 0 && Checksum(p[20..]) == 0
    && FromBE(p[12..16]) == gateway && p[16..20] == orig[12..16]
    && p[20] == 3 && p[21] == 4 && p[24] == 0 && p[25] == 0 && FromBE(p[26..28]) == mtu
    && p[28..] == orig[..Min(|orig|, (orig[0] % 16) * 4 + 8)]
  }

  lemma SplitV4(h: seq<byte>, icmp: seq<byte>, orig: seq<byte>, mtu: u16, gateway: Ip4)
    requires |orig| >= 20 && |h| == 20 && 16 <= |icmp| <= 76 && icmp[8..] == orig[..Min(|orig|, HeaderLen(orig) + 8)]
    requires Checksum(h) == 0 && h[0] == 0x45 && h[1] == 0 && h[4..10] == [0, 0, 0, 0, 64, 1]
    requires FromBE(h[2..4]) == 20 + |icmp|
    requires FromBE(h[12..16]) == gateway && h[16..20] == orig[12..16]
    requires Checksum(icmp) == 0 && icmp[0] == 3 && icmp[1] == 4 && icmp[4] == 0 && icmp[5] == 0
    requires FromBE(icmp[6..8]) == mtu
    ensures AnswersV4(h + icmp, orig, mtu, gateway)
  {
    var p := h + icmp;
    assert p[..20] == h && p[20..] == icmp;
    assert p[2..4] == h[2..4] && p[4..10] == h[4..10] && p[12..16] == h[12..16] && p[16..20] == h[16..20];
    assert p[26..28] == icmp[6..8] && p[28..] == icmp[8..];
  }

  /** Errors are never answered: both builders recognise an ICMP packet of either family. */
  lemma ErrorsAreNotAnswered(p: seq<byte>)
    requires |p| >= 20 && ((p[0] == 0x45 && p[9] == 1) || (|p| >= 40 && p[0] == 0x60 && p[6] == 58))
    ensures forall m: u16, g: Ip4 :: FragNeeded(p, m, g) == None
    ensures forall m: u32, g: Ip6 :: PktTooBig(p, m, g) == None
  {
  }

  lemma AnswerIsNotAnswered(p: seq<byte>, orig: seq<byte>, mtu: u16, gateway: Ip4)
    requires AnswersV4(p, orig, mtu, gateway)
    ensures forall m: u16, g: Ip4 :: FragNeeded(p, m, g) == None
    ensures forall m: u32, g: Ip6 :: PktTooBig(p, m, g) == None
  {
    assert p[9] == p[4..10][5];
    ErrorsAreNotAnswered(p);
  }

  /**
   * Whatever packet it is given, what the builder returns is a well-formed error for that packet's
   * source, at most 96 bytes long, and neither builder answers it in turn.
   */
  lemma FragNeededIsSound(orig: seq<byte>, mtu: u16, gateway: Ip4)
    requires FragNeeded(orig, mtu, gateway).Some?
    ensures AnswersV4(FragNeeded(orig, mtu, gateway).value, orig, mtu, gateway)
    ensures forall m: u16, g: Ip4 :: FragNeeded(FragNeeded(orig, mtu, gateway).value, m, g) == None
    ensures forall m: u32, g: Ip6 :: PktTooBig(FragNeeded(orig, mtu, gateway).value, m, g) == None
  {
    var quote := orig[..Min(|orig|, HeaderLen(orig) + 8)];
    var icmp, p := FragNeededIcmp(quote, mtu), FragNeeded(orig, mtu, gateway).value;
    var h := V4Header(20 + |icmp|, gateway, orig[12..16]);
    FragNeededIcmpSays(quote, mtu);
    V4HeaderSays(20 + |icmp|, gateway, orig[12..16]);
    assert p == h + icmp;
    SplitV4(h, icmp, orig, mtu, gateway);
    AnswerIsNotAnswered(p, orig, mtu, gateway);
  }

  /** The builder stays silent on every packet it cannot or must not answer, and on no other. */
  lemma FragNeededAnswersExactly(orig: seq<byte>, mtu: u16, gateway: Ip4)
    ensures FragNeeded(orig, mtu, gateway).Some? <==>
            && |orig| >= 20 && orig[0] / 16 == 4 && 20 <= (orig[0] % 16) * 4 <= |orig|
            && orig[9] != 1 && AnswerableIp4(Ip4At(orig, 12))
  {
    if |orig| >= 20 {
      AnswerableV4(orig[12..16]);
    }
    if |orig| >= 20 && HeaderLen(orig) <= |orig| {
      FragNeededIcmpSays(orig[..Min(|orig|, HeaderLen(orig) + 8)], mtu);
    }
  }

  lemma TooBigIcmpSays(quote: seq<byte>, mtu: u32, gateway: Ip6, dst: seq<byte>)
    requires |dst| == 16 && |quote| <= IPV6_MIN_MTU
    ensures var icmp := TooBigIcmp(quote, mtu, gateway, dst);
            && |icmp| == 8 + |quote|
            && Checksum(PseudoHeader(BE16(gateway), dst, |icmp|) + icmp) == 0
            && icmp[0] == 2 && icmp[1] == 0 && FromBE(icmp[4..8]) == mtu && icmp[8..] == quote
  {
    PowersOf256();
    var blank := [2, 0, 0, 0] + BE(4, mtu) + quote;
    var pseudo := PseudoHeader(BE(16, gateway), dst, |blank|);
    SelfVerifiesBehind(pseudo, blank, 2);
    var icmp := TooBigIcmp(quote, mtu, gateway, dst);
    assert icmp[4..8] == BE(4, mtu) && icmp[8..] == quote;
    FromBEofBE(4, mtu);
  }

  ghost predicate AnswersV6(p: seq<byte>, orig: seq<byte>, mtu: u32, gateway: Ip6) {
    && 48 <= |p| <= 1280 && |orig| >= 40
    && p[..4] == [0x60, 0, 0, 0] && p[6] == 58 && p[7] == 64
    && FromBE(p[4..6]) == |p| - 40
    && FromBE(p[8..24]) == gateway && p[24..40] == orig[8..24]
    && Checksum(p[8..24] + p[24..40] + BE4(|p| - 40) + [0, 0, 0, 58] + p[40..]) == 0
    && p[40] == 2 && p[41] == 0 && FromBE(p[44..48]) == mtu
    && p[48..] == orig[..Min(|orig|, 1232)]
  }

  lemma TooBigLayout(len: u16, gateway: Ip6, dst: seq<byte>, icmp: seq<byte>)
    requires |dst| == 16 && |icmp| == len && len >= 8
    ensures var p := V6Header(len, gateway, dst) + icmp;
            && |p| == len + 40 && p[..4] == [0x60, 0, 0, 0] && p[4..6] == BE(2, len)
            && p[8..24] == BE16(gateway) && p[24..40] == dst
            && p[40..] == icmp && p[44..48] == icmp[4..8] && p[48..] == icmp[8..]
  {
  }

  /** The parts put together. */
  lemma SplitV6(p: seq<byte>, icmp: seq<byte>, orig: seq<byte>, mtu: u32, gateway: Ip6)
    requires |orig| >= 40 && 8 <= |icmp| <= 1240 && p == V6Header(|icmp|, gateway, orig[8..24]) + icmp
    requires Checksum(PseudoHeader(BE16(gateway), orig[8..24], |icmp|) + icmp) == 0
    requires icmp[0] == 2 && icmp[1] == 0 && FromBE(icmp[4..8]) == mtu && icmp[8..] == orig[..Min(|orig|, 1232)]
    ensures AnswersV6(p, orig, mtu, gateway)
  {
    PowersOf256();
    FromBEofBE(2, |icmp|);
    TooBigLayout(|icmp|, gateway, orig[8..24], icmp);
  }

  lemma PktTooBigIsSound(orig: seq<byte>, mtu: u32, gateway: Ip6)
    requires PktTooBig(orig, mtu, gateway).Some?
    ensures AnswersV6(PktTooBig(orig, mtu, gateway).value, orig, mtu, gateway)
    ensures forall m: u16, g: Ip4 :: FragNeeded(PktTooBig(orig, mtu, gateway).value, m, g) == None
    ensures forall m: u32, g: Ip6 :: PktTooBig(PktTooBig(orig, mtu, gateway).value, m, g) == None
  {
    var quote, dst := orig[..Min(|orig|, IPV6_MIN_MTU - 48)], orig[8..24];
    var icmp, p := TooBigIcmp(quote, mtu, gateway, dst), PktTooBig(orig, mtu, gateway).value;
    TooBigIcmpSays(quote, mtu, gateway, dst);
    SplitV6(p, icmp, orig, mtu, gateway);
    assert p[0] == p[..4][0];
    ErrorsAreNotAnswered(p);
  }

  /** Every packet of the mesh is answered: a whole header, not ICMP, and a source that is one of the mesh's addresses. */
  lemma MeshIsAnswered(orig: seq<byte>, mtu4: u16, gateway4: Ip4, mtu6: u32, gateway6: Ip6)
    ensures IsV4(orig) && 20 <= (orig[0] % 16) * 4 <= |orig| && orig[9] != 1 && VipInMesh(Ip4At(orig, 12)) ==>
              FragNeeded(orig, mtu4, gateway4).Some?
    ensures IsV6(orig) && orig[6] != 58 && Vip6InMesh(Ip6At(orig, 8)) ==> PktTooBig(orig, mtu6, gateway6).Some?
  {
    FragNeededAnswersExactly(orig, mtu4, gateway4);
    PktTooBigAnswersExactly(orig, mtu6, gateway6);
  }

  /** And it goes back to the packet's sender from the gateway: what the packet plane reads from the answer. */
  lemma AnswerGoesBack(orig: seq<byte>, mtu4: u16, gateway4: Ip4, mtu6: u32, gateway6: Ip6)
    ensures FragNeeded(orig, mtu4, gateway4).Some? ==>
              && Ipv4Dst(FragNeeded(orig, mtu4, gateway4).value) == Ipv4Src(orig)
              && Ipv4Src(FragNeeded(orig, mtu4, gateway4).value) == Some(gateway4)
    ensures PktTooBig(orig, mtu6, gateway6).Some? ==>
              && Ipv6Dst(PktTooBig(orig, mtu6, gateway6).value) == Ipv6Src(orig)
              && Ipv6Src(PktTooBig(orig, mtu6, gateway6).value) == Some(gateway6)
  {
    if FragNeeded(orig, mtu4, gateway4).Some? {
      FragNeededIsSound(orig, mtu4, gateway4);
    }
    if PktTooBig(orig, mtu6, gateway6).Some? {
      PktTooBigIsSound(orig, mtu6, gateway6);
    }
  }
}
