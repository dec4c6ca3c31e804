/** SOCKS5: the proxy stream header and the local handshake (src/socks5.rs; RFC 1928). */
module Socks5 {
  import opened Net
  import opened ByteStream

  /** A proxy target. The flow label and the scope of an IPv6 socket address are not sent. */
  datatype Target =
    | AddrV4(ip: Ip4, port: u16)
    | AddrV6(ip6: Ip6, port: u16, flow: u32, scope: u32)
    | Domain(host: seq<byte>, port: u16)

  const ATYP_V4: byte := 1
  const ATYP_DOMAIN: byte := 3
  const ATYP_V6: byte := 4

  // ---------------------------------------------------------------- numbers on the wire

  function PortBytes(port: u16): (b: seq<byte>)
    ensures |b| == 2
  {
    [port / 0x100, port % 0x100]
  }

  function PortOf(b: seq<byte>): u16
    requires |b| == 2
  {
    b[0] as int * 0x100 + b[1]
  }

  function Ip4Of(b: seq<byte>): Ip4
    requires |b| == 4
  {
    PowersOf256();
    FromBE(b)
  }

  function Ip6Of(b: seq<byte>): Ip6
    requires |b| == 16
  {
    PowersOf256();
    FromBE(b)
  }

  lemma NumbersReadBack(port: u16, ip: Ip4, ip6: Ip6)
    ensures PortOf(PortBytes(port)) == port && Ip4Of(BE4(ip)) == ip && Ip6Of(BE16(ip6)) == ip6
  {
    PowersOf256();
    FromBEofBE(4, ip);
    FromBEofBE(16, ip6);
  }

  lemma PortIsCanonical(b: seq<byte>)
    requires |b| == 2
    ensures PortBytes(PortOf(b)) == b
  {
  }

  lemma Ip4IsCanonical(b: seq<byte>)
    requires |b| == 4
    ensures BE4(Ip4Of(b)) == b
  {
    PowersOf256();
    BEofFromBE(b);
  }

  lemma Ip6IsCanonical(b: seq<byte>)
    requires |b| == 16
    ensures BE16(Ip6Of(b)) == b
  {
    PowersOf256();
    BEofFromBE(b);
  }

  // ---------------------------------------------------------------- the header

  /** The address part of a header, behind its type byte. */
  function AddressBytes(t: Target): (b: seq<byte>)
    requires t.Domain? ==> |t.host| <= 255
  {
    match t
    case AddrV4(ip, port) => BE4(ip) + PortBytes(port)
    case AddrV6(ip, port, _, _) => BE16(ip) + PortBytes(port)
    case Domain(host, port) => [|host|] + (host + PortBytes(port))
  }

  function Atyp(t: Target): byte {
    match t
    case AddrV4(_, _) => ATYP_V4
    case AddrV6(_, _, _, _) => ATYP_V6
    case Domain(_, _) => ATYP_DOMAIN
  }

  /** None stands for "domain name too long". */
  function TargetBytes(t: Target): Option<seq<byte>> {
    if t.Domain? && |t.host| > 255 then None else Some([Atyp(t)] + AddressBytes(t))
  }

  lemma Pushed(buf: seq<byte>, a: seq<byte>, b: seq<byte>, c: seq<byte>)
    ensures buf + a + b + c == buf + (a + (b + c))
  {
  }

  /** `encode_target`: appended to the buffer, which a failure leaves as it was. */
  method EncodeTarget(buf: seq<byte>, t: Target) returns (out: seq<byte>, ok: bool)
    ensures ok == TargetBytes(t).Some?
    ensures out == if ok then buf + TargetBytes(t).value else buf
  {
    out, ok := buf, true;
    match t
    case AddrV4(ip, port) =>
      Pushed(buf, [ATYP_V4], BE4(ip), PortBytes(port));
      out := out + [ATYP_V4];
      out := out + BE4(ip);
      out := out + PortBytes(port);
    case AddrV6(ip, port, _, _) =>
      Pushed(buf, [ATYP_V6], BE16(ip), PortBytes(port));
      out := out + [ATYP_V6];
      out := out + BE16(ip);
      out := out + PortBytes(port);
    case Domain(host, port) =>
      if |host| > 255 {
        ok := false;
        return;
      }
      Pushed(buf + [ATYP_DOMAIN], [|host|], host, PortBytes(port));
      Pushed(buf, [ATYP_DOMAIN], [|host|], host + PortBytes(port));
      out := out + [ATYP_DOMAIN];
      out := out + [|host|];
      out := out + host;
      out := out + PortBytes(port);
  }

  function WithPort(address: Read<seq<byte>>): Read<(seq<byte>, u16)> {
    if address.Bad? then Bad
    else
      var port := Take(address.rest, 2);
      if port.Bad? then Bad else Got((address.value, PortOf(port.value)), port.rest)
  }

  /** The address part that follows a type byte; `utf8` tells which bytes are a string. */
  function ParseAddress(atyp: byte, bytes: seq<byte>, utf8: seq<byte> -> bool): Read<Target> {
    if atyp == ATYP_V4 then
      var a := WithPort(Take(bytes, 4));
      if a.Bad? || |a.value.0| != 4 then Bad else Got(AddrV4(Ip4Of(a.value.0), a.value.1), a.rest)
    else if atyp == ATYP_V6 then
      var a := WithPort(Take(bytes, 16));
      if a.Bad? || |a.value.0| != 16 then Bad else Got(AddrV6(Ip6Of(a.value.0), a.value.1, 0, 0), a.rest)
    else if atyp == ATYP_DOMAIN && bytes != [] then
      var a := WithPort(Take(bytes[1..], bytes[0]));
      if a.Bad? || !utf8(a.value.0) then Bad else Got(Domain(a.value.0, a.value.1), a.rest)
    else Bad
  }

  function ParseTarget(bytes: seq<byte>, utf8: seq<byte> -> bool): Read<Target> {
    if bytes == [] then Bad else ParseAddress(bytes[0], bytes[1..], utf8)
  }

  /** The address part, read step by step as both readers do. */
  method ReadAddress(r: Stream, atyp: byte, utf8: seq<byte> -> bool) returns (t: Option<Target>)
    modifies r
    ensures match ParseAddress(atyp, old(r.rest), utf8)
            case Got(value, rest) => t == Some(value) && r.rest == rest
            case Bad => t == None
  {
    if atyp == ATYP_V4 {
      var ip := r.ReadExact(4);
      if ip.None? {
        return None;
      }
      var port := r.ReadExact(2);
      if port.None? {
        return None;
      }
      t := Some(AddrV4(Ip4Of(ip.value), PortOf(port.value)));
    } else if atyp == ATYP_V6 {
      var ip := r.ReadExact(16);
      if ip.None? {
        return None;
      }
      var port := r.ReadExact(2);
      if port.None? {
        return None;
      }
      t := Some(AddrV6(Ip6Of(ip.value), PortOf(port.value), 0, 0));
    } else if atyp == ATYP_DOMAIN {
      var len := r.ReadExact(1);
      if len.None? {
        return None;
      }
      var host := r.ReadExact(len.value[0]);
      if host.None? || !utf8(host.value) {
        return None;
      }
      var port := r.ReadExact(2);
      if port.None? {
        return None;
      }
      t := Some(Domain(host.value, PortOf(port.value)));
    } else {
      t := None;
    }
  }

  /** `read_target`. */
  method ReadTarget(r: Stream, utf8: seq<byte> -> bool) returns (t: Option<Target>)
    modifies r
    ensures match ParseTarget(old(r.rest), utf8)
            case Got(value, rest) => t == Some(value) && r.rest == rest
            case Bad => t == None
  {
    var atyp := r.ReadExact(1);
    if atyp.None? {
      return None;
    }
    t := ReadAddress(r, atyp.value[0], utf8);
  }

  /** What the far side gets of a target. */
  function Sent(t: Target): Target {
    if t.AddrV6? then AddrV6(t.ip6, t.port, 0, 0) else t
  }

  ghost predicate Sendable(t: Target, utf8: seq<byte> -> bool) {
    t.Domain? ==> |t.host| <= 255 && utf8(t.host)
  }

  lemma WithPortReadsBack(address: seq<byte>, port: u16, tail: seq<byte>)
    ensures WithPort(Take(address + PortBytes(port) + tail, |address|)) == Got((address, port), tail)
  {
    assert address + PortBytes(port) + tail == address + (PortBytes(port) + tail);
    TakeFront(address, PortBytes(port) + tail);
    TakeFront(PortBytes(port), tail);
    NumbersReadBack(port, 0, 0);
  }

  lemma AddressReadsBack(t: Target, tail: seq<byte>, utf8: seq<byte> -> bool)
    requires Sendable(t, utf8)
    ensures ParseAddress(Atyp(t), AddressBytes(t) + tail, utf8) == Got(Sent(t), tail)
  {
    match t
    case AddrV4(ip, port) =>
      WithPortReadsBack(BE4(ip), port, tail);
      NumbersReadBack(port, ip, 0);
    case AddrV6(ip, port, _, _) =>
      WithPortReadsBack(BE16(ip), port, tail);
      NumbersReadBack(port, 0, ip);
    case Domain(host, port) =>
      WithPortReadsBack(host, port, tail);
      var bytes := AddressBytes(t) + tail;
      assert bytes == [|host|] + (host + PortBytes(port) + tail);
      assert bytes[0] == |host| && bytes[1..] == host + PortBytes(port) + tail;
  }

  lemma TargetSplit(t: Target, rest: seq<byte>)
    requires TargetBytes(t).Some?
    ensures TargetBytes(t).value + rest == [Atyp(t)] + (AddressBytes(t) + rest)
  {
  }

  /** A header is read back whatever follows it; the target comes back whole exactly when it has no flow and scope. */
  lemma TargetReadsBack(t: Target, tail: seq<byte>, utf8: seq<byte> -> bool)
    requires Sendable(t, utf8)
    ensures ParseTarget(TargetBytes(t).value + tail, utf8) == Got(Sent(t), tail)
    ensures Sent(t) == t <==> (t.AddrV6? ==> t.flow == 0 && t.scope == 0)
  {
    var bytes := TargetBytes(t).value + tail;
    TargetSplit(t, tail);
    assert bytes[0] == Atyp(t) && bytes[1..] == AddressBytes(t) + tail;
    AddressReadsBack(t, tail, utf8);
  }

  lemma WithPortOnlyEncoding(bytes: seq<byte>, n: nat)
    requires WithPort(Take(bytes, n)).Got?
    ensures var a := WithPort(Take(bytes, n));
            |a.value.0| == n && bytes == a.value.0 + PortBytes(a.value.1) + a.rest
  {
    PortIsCanonical(bytes[n..][..2]);
    assert bytes == bytes[..n] + bytes[n..][..2] + bytes[n..][2..];
  }

  /** The address bytes of what was parsed are the bytes it was parsed from. */
  lemma AddressOnlyEncoding(atyp: byte, bytes: seq<byte>, utf8: seq<byte> -> bool)
    requires ParseAddress(atyp, bytes, utf8).Got?
    ensures var r := ParseAddress(atyp, bytes, utf8);
            Sendable(r.value, utf8) && Sent(r.value) == r.value && Atyp(r.value) == atyp
            && bytes == AddressBytes(r.value) + r.rest
  {
    if atyp == ATYP_V4 {
      WithPortOnlyEncoding(bytes, 4);
      Ip4IsCanonical(WithPort(Take(bytes, 4)).value.0);
    } else if atyp == ATYP_V6 {
      WithPortOnlyEncoding(bytes, 16);
      Ip6IsCanonical(WithPort(Take(bytes, 16)).value.0);
    } else {
      WithPortOnlyEncoding(bytes[1..], bytes[0]);
      var a := WithPort(Take(bytes[1..], bytes[0]));
      assert bytes == [bytes[0]] + (a.value.0 + PortBytes(a.value.1)) + a.rest;
    }
  }

  lemma TargetOnlyEncoding(bytes: seq<byte>, utf8: seq<byte> -> bool)
    requires ParseTarget(bytes, utf8).Got?
    ensures var r := ParseTarget(bytes, utf8);
            TargetBytes(r.value).Some? && bytes == TargetBytes(r.value).value + r.rest
  {
    AddressOnlyEncoding(bytes[0], bytes[1..], utf8);
    TargetSplit(ParseTarget(bytes, utf8).value, ParseTarget(bytes, utf8).rest);
  }

  function Parser(utf8: seq<byte> -> bool): seq<byte> -> Read<Target> {
    bytes => ParseTarget(bytes, utf8)
  }

  function SendBytes(t: Target): seq<byte> {
    if TargetBytes(t).Some? then TargetBytes(t).value else []
  }

  /** Any headers written one behind the other are read back as the same list, with nothing left over. */
  lemma HeaderStreamReadsBack(ts: seq<Target>, utf8: seq<byte> -> bool)
    requires forall t :: t in ts ==> Sendable(t, utf8)
    ensures ReadAll(Parser(utf8), Concat(SendBytes, ts)) == Some(Mapped(Sent, ts))
  {
    forall t | t in ts ensures SelfDelimiting(Parser(utf8), SendBytes, Sent, t) {
      forall tail ensures Parser(utf8)(SendBytes(t) + tail) == Got(Sent(t), tail) {
        TargetReadsBack(t, tail, utf8);
      }
    }
    StreamReadsBack(Parser(utf8), SendBytes, Sent, ts);
  }

  lemma HeaderStreamIsItsEncoding(bytes: seq<byte>, utf8: seq<byte> -> bool)
    requires ReadAll(Parser(utf8), bytes).Some?
    ensures Concat(SendBytes, ReadAll(Parser(utf8), bytes).value) == bytes
  {
    forall b | Parser(utf8)(b).Got? ensures b == SendBytes(Parser(utf8)(b).value) + Parser(utf8)(b).rest {
      TargetOnlyEncoding(b, utf8);
    }
    StreamIsItsEncoding(Parser(utf8), SendBytes, bytes);
  }

  // ---------------------------------------------------------------- the local handshake

  const VERSION: byte := 5
  const NO_AUTH: byte := 0
  const CONNECT: byte := 1

  const METHOD_ACCEPTED: seq<byte> := [5, 0]
  const METHOD_REFUSED: seq<byte> := [5, 0xFF]

  function Reply(code: byte): seq<byte> {
    [5, code, 0, 1, 0, 0, 0, 0, 0, 0]
  }

  /** What the client is told, and the target and the unread bytes if the handshake succeeds. */
  datatype Outcome = Outcome(target: Option<Target>, rest: seq<byte>, replies: seq<byte>)

  function Request(bytes: seq<byte>, utf8: seq<byte> -> bool): Outcome {
    var req := Take(bytes, 4);
    if req.Bad? || req.value[0] != VERSION then Outcome(None, [], METHOD_ACCEPTED)
    else if req.value[1] != CONNECT then Outcome(None, [], METHOD_ACCEPTED + Reply(7))
    else if req.value[3] !in {ATYP_V4, ATYP_DOMAIN, ATYP_V6} then Outcome(None, [], METHOD_ACCEPTED + Reply(8))
    else
      match ParseAddress(req.value[3], req.rest, utf8)
      case Bad => Outcome(None, [], METHOD_ACCEPTED)
      case Got(t, rest) => Outcome(Some(t), rest, METHOD_ACCEPTED + Reply(0))
  }

  function Handshake(bytes: seq<byte>, utf8: seq<byte> -> bool): Outcome {
    var hdr := Take(bytes, 2);
    if hdr.Bad? || hdr.value[0] != VERSION then Outcome(None, [], [])
    else
      var methods := Take(hdr.rest, hdr.value[1]);
      if methods.Bad? then Outcome(None, [], [])
      else if NO_AUTH !in methods.value then Outcome(None, [], METHOD_REFUSED)
      else Request(methods.rest, utf8)
  }

  /** `accept_handshake`, with replies that can always be written. */
  method AcceptHandshake(tcp: Stream, utf8: seq<byte> -> bool) returns (target: Option<Target>, replies: seq<byte>)
    modifies tcp
    ensures var o := Handshake(old(tcp.rest), utf8);
            target == o.target && replies == o.replies && (target.Some? ==> tcp.rest == o.rest)
  {
    target, replies := None, [];
    var hdr := tcp.ReadExact(2);
    if hdr.None? || hdr.value[0] != VERSION {
      return;
    }
    var methods := tcp.ReadExact(hdr.value[1]);
    if methods.None? {
      return;
    }
    if NO_AUTH !in methods.value {
      replies := replies + METHOD_REFUSED;
      return;
    }
    replies := replies + METHOD_ACCEPTED;
    target, replies := AcceptRequest(tcp, utf8, replies);
  }

  /** The request half of the handshake. */
  method AcceptRequest(tcp: Stream, utf8: seq<byte> -> bool, before: seq<byte>) returns (target: Option<Target>, replies: seq<byte>)
    requires before == METHOD_ACCEPTED
    modifies tcp
    ensures var o := Request(old(tcp.rest), utf8);
            target == o.target && replies == o.replies && (target.Some? ==> tcp.rest == o.rest)
  {
    target, replies := None, before;
    var req := tcp.ReadExact(4);
    if req.None? || req.value[0] != VERSION {
      return;
    }
    if req.value[1] != CONNECT {
      replies := replies + Reply(7);
      return;
    }
    if req.value[3] !in {ATYP_V4, ATYP_DOMAIN, ATYP_V6} {
      replies := replies + Reply(8);
      return;
    }
    target := ReadAddress(tcp, req.value[3], utf8);
    if target.Some? {
      replies := replies + Reply(0);
    }
  }

  /** A client's CONNECT request around an address. */
  function RequestBytes(reserved: byte, t: Target): seq<byte>
    requires TargetBytes(t).Some?
  {
    [VERSION, CONNECT, reserved] + TargetBytes(t).value
  }

  /** The whole of what a client sends. */
  function ClientBytes(methods: seq<byte>, reserved: byte, t: Target): seq<byte>
    requires |methods| <= 255 && TargetBytes(t).Some?
  {
    [VERSION, |methods|] + (methods + RequestBytes(reserved, t))
  }

  lemma ClientSplit(methods: seq<byte>, reserved: byte, t: Target, rest: seq<byte>)
    requires |methods| <= 255 && TargetBytes(t).Some?
    ensures ClientBytes(methods, reserved, t) + rest
            == [VERSION, |methods|] + (methods + (RequestBytes(reserved, t) + rest))
  {
  }

  lemma RequestSplit(reserved: byte, t: Target, rest: seq<byte>)
    requires TargetBytes(t).Some?
    ensures RequestBytes(reserved, t) + rest == [VERSION, CONNECT, reserved, Atyp(t)] + (AddressBytes(t) + rest)
  {
  }

  lemma ConnectIsAccepted(reserved: byte, t: Target, tail: seq<byte>, utf8: seq<byte> -> bool)
    requires Sendable(t, utf8)
    ensures Request(RequestBytes(reserved, t) + tail, utf8) == Outcome(Some(Sent(t)), tail, METHOD_ACCEPTED + Reply(0))
  {
    var req := [VERSION, CONNECT, reserved, Atyp(t)];
    RequestSplit(reserved, t, tail);
    TakeFront(req, AddressBytes(t) + tail);
    AddressReadsBack(t, tail, utf8);
  }

  lemma GreetingIsAccepted(methods: seq<byte>, more: seq<byte>, utf8: seq<byte> -> bool)
    requires |methods| <= 255 && NO_AUTH in methods
    ensures Handshake([VERSION, |methods|] + (methods + more), utf8) == Request(more, utf8)
  {
    TakeFront([VERSION, |methods|], methods + more);
    TakeFront(methods, more);
  }

  /** Every CONNECT request that offers no authentication is accepted with its target, up to flow and scope. */
  lemma RequestIsAccepted(methods: seq<byte>, reserved: byte, t: Target, tail: seq<byte>, utf8: seq<byte> -> bool)
    requires |methods| <= 255 && NO_AUTH in methods && Sendable(t, utf8)
    ensures Handshake(ClientBytes(methods, reserved, t) + tail, utf8)
            == Outcome(Some(Sent(t)), tail, METHOD_ACCEPTED + Reply(0))
  {
    var more := RequestBytes(reserved, t) + tail;
    ClientSplit(methods, reserved, t, tail);
    GreetingIsAccepted(methods, more, utf8);
    ConnectIsAccepted(reserved, t, tail, utf8);
  }

  lemma AcceptedRequest(bytes: seq<byte>, utf8: seq<byte> -> bool)
    requires Request(bytes, utf8).target.Some?
    ensures var o := Request(bytes, utf8);
            && |bytes| >= 4 && TargetBytes(o.target.value).Some? && o.replies == METHOD_ACCEPTED + Reply(0)
            && bytes == RequestBytes(bytes[2], o.target.value) + o.rest
  {
    var o := Request(bytes, utf8);
    AddressOnlyEncoding(bytes[3], bytes[4..], utf8);
    RequestSplit(bytes[2], o.target.value, o.rest);
    assert bytes[..4] == [VERSION, CONNECT, bytes[2], bytes[3]] && bytes == bytes[..4] + bytes[4..];
  }

  lemma CutTwice(bytes: seq<byte>, n: nat)
    requires |bytes| >= 2 + n
    ensures bytes[2..][..n] == bytes[2..2 + n] && bytes[2..][n..] == bytes[2 + n..]
    ensures bytes == bytes[..2] + (bytes[2..2 + n] + bytes[2 + n..])
  {
  }

  lemma AcceptedGreeting(bytes: seq<byte>, utf8: seq<byte> -> bool)
    requires Handshake(bytes, utf8).target.Some?
    ensures |bytes| >= 2 && 2 + bytes[1] <= |bytes| && NO_AUTH in bytes[2..2 + bytes[1]]
    ensures Handshake(bytes, utf8) == Request(bytes[2 + bytes[1]..], utf8)
    ensures bytes == [VERSION, bytes[1]] + (bytes[2..2 + bytes[1]] + bytes[2 + bytes[1]..])
  {
    var n := bytes[1] as nat;
    CutTwice(bytes, n);
    assert bytes[..2] == [VERSION, bytes[1]];
  }

  /**
   * Whenever the handshake succeeds, the client offered no authentication and asked to CONNECT, and the
   * stream header of the target repeats the address bytes of that very request.
   */
  lemma HeaderRepeatsRequest(bytes: seq<byte>, utf8: seq<byte> -> bool)
    requires Handshake(bytes, utf8).target.Some?
    ensures var o := Handshake(bytes, utf8);
            && TargetBytes(o.target.value).Some? && o.replies == METHOD_ACCEPTED + Reply(0)
            && exists methods: seq<byte>, reserved: byte ::
                 |methods| <= 255 && NO_AUTH in methods
                 && bytes == ClientBytes(methods, reserved, o.target.value) + o.rest
  {
    var o := Handshake(bytes, utf8);
    AcceptedGreeting(bytes, utf8);
    var methods, more := bytes[2..2 + bytes[1]], bytes[2 + bytes[1]..];
    AcceptedRequest(more, utf8);
    ClientSplit(methods, more[2], o.target.value, o.rest);
    assert bytes == ClientBytes(methods, more[2], o.target.value) + o.rest;
  }

  // ---------------------------------------------------------------- the bytes and every refusal

  /** Byte by byte: the type - 1, 4 or 3 -, the address or the host behind its length, the port; no host over 255 bytes. */
  lemma TargetLayout(t: Target)
    ensures TargetBytes(t) ==
            match t
            case AddrV4(ip, port) => Some([1] + BE4(ip) + [port / 0x100, port % 0x100])
            case AddrV6(ip, port, _, _) => Some([4] + BE16(ip) + [port / 0x100, port % 0x100])
            case Domain(host, port) =>
              if |host| > 255 then None else Some([3, |host|] + host + [port / 0x100, port % 0x100])
  {
    match t
    case AddrV4(ip, port) =>
      assert [ATYP_V4] + (BE4(ip) + PortBytes(port)) == [1] + BE4(ip) + [port / 0x100, port % 0x100];
    case AddrV6(ip, port, _, _) =>
      assert [ATYP_V6] + (BE16(ip) + PortBytes(port)) == [4] + BE16(ip) + [port / 0x100, port % 0x100];
    case Domain(host, port) =>
      if |host| <= 255 {
        assert [ATYP_DOMAIN] + ([|host|] + (host + PortBytes(port))) == [3, |host|] + host + [port / 0x100, port % 0x100];
      }
  }

  /** The client's greeting is whole and of version 5. */
  predicate Greets(bytes: seq<byte>) {
    |bytes| >= 2 && bytes[0] == 5 && 2 + bytes[1] <= |bytes|
  }

  /** Greeted, with no authentication among the methods, and a whole request header of version 5 behind them. */
  predicate Requests(bytes: seq<byte>) {
    && Greets(bytes) && 0 in bytes[2..2 + bytes[1]]
    && 2 + bytes[1] + 4 <= |bytes| && bytes[2 + bytes[1]] == 5
  }

  function RefusedWith(code: byte): Outcome {
    Outcome(None, [], [5, 0, 5, code, 0, 1, 0, 0, 0, 0, 0, 0])
  }

  lemma UnsupportedIsRefused(req: seq<byte>, utf8: seq<byte> -> bool)
    requires |req| >= 4 && req[0] == 5
    ensures req[1] != 1 ==> Request(req, utf8) == RefusedWith(7)
    ensures req[1] == 1 && req[3] !in {1, 3, 4} ==> Request(req, utf8) == RefusedWith(8)
  {
    assert [5, 0] + [5, 7, 0, 1, 0, 0, 0, 0, 0, 0] == [5, 0, 5, 7, 0, 1, 0, 0, 0, 0, 0, 0];
    assert [5, 0] + [5, 8, 0, 1, 0, 0, 0, 0, 0, 0] == [5, 0, 5, 8, 0, 1, 0, 0, 0, 0, 0, 0];
  }

  lemma SupportedIsParsed(req: seq<byte>, utf8: seq<byte> -> bool)
    requires |req| >= 4 && req[0] == 5 && req[1] == 1 && req[3] in {1, 3, 4}
    ensures Request(req, utf8) ==
            match ParseAddress(req[3], req[4..], utf8)
            case Bad => Outcome(None, [], [5, 0])
            case Got(t, rest) => Outcome(Some(t), rest, [5, 0, 5, 0, 0, 1, 0, 0, 0, 0, 0, 0])
  {
    assert [5, 0] + [5, 0, 0, 1, 0, 0, 0, 0, 0, 0] == [5, 0, 5, 0, 0, 1, 0, 0, 0, 0, 0, 0];
  }

  /**
   * What any client is told: nothing without a whole greeting; "no acceptable method" when it does not offer to go
   * without authentication; then the method, alone when the request is cut or of another version, and the refusal
   * or the success of what it asks for.
   */
  lemma RefusalsExactly(bytes: seq<byte>, utf8: seq<byte> -> bool)
    ensures !Greets(bytes) ==> Handshake(bytes, utf8) == Outcome(None, [], [])
    ensures Greets(bytes) && 0 !in bytes[2..2 + bytes[1]] ==> Handshake(bytes, utf8) == Outcome(None, [], [5, 0xFF])
    ensures Greets(bytes) && 0 in bytes[2..2 + bytes[1]] && !Requests(bytes) ==>
              Handshake(bytes, utf8) == Outcome(None, [], [5, 0])
    ensures Requests(bytes) ==>
              var req := bytes[2 + bytes[1]..];
              && (req[1] != 1 ==> Handshake(bytes, utf8) == RefusedWith(7))
              && (req[1] == 1 && req[3] !in {1, 3, 4} ==> Handshake(bytes, utf8) == RefusedWith(8))
              && (req[1] == 1 && req[3] in {1, 3, 4} ==>
                    match ParseAddress(req[3], req[4..], utf8)
                    case Bad => Handshake(bytes, utf8) == Outcome(None, [], [5, 0])
                    case Got(t, rest) =>
                      Handshake(bytes, utf8) == Outcome(Some(t), rest, [5, 0, 5, 0, 0, 1, 0, 0, 0, 0, 0, 0]))
  {
    if Greets(bytes) {
      CutTwice(bytes, bytes[1]);
      var req := bytes[2 + bytes[1]..];
      if Requests(bytes) {
        UnsupportedIsRefused(req, utf8);
        if req[1] == 1 && req[3] in {1, 3, 4} {
          SupportedIsParsed(req, utf8);
        }
      }
    }
  }

  /** Which addresses cannot be read: those cut short, and hosts that are not a string. */
  lemma UnreadableExactly(atyp: byte, bytes: seq<byte>, utf8: seq<byte> -> bool)
    ensures atyp == 1 ==> (ParseAddress(atyp, bytes, utf8).Bad? <==> |bytes| < 6)
    ensures atyp == 4 ==> (ParseAddress(atyp, bytes, utf8).Bad? <==> |bytes| < 18)
    ensures atyp == 3 ==>
              (ParseAddress(atyp, bytes, utf8).Bad? <==>
                bytes == [] || 3 + bytes[0] > |bytes| || !utf8(bytes[1..1 + bytes[0]]))
    ensures atyp !in {1, 3, 4} ==> ParseAddress(atyp, bytes, utf8).Bad?
  {
    if atyp == 3 && bytes != [] && 1 + bytes[0] <= |bytes| {
      assert bytes[1..][..bytes[0]] == bytes[1..1 + bytes[0]];
    }
  }
}
