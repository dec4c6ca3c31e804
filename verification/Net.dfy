/** Bytes, addresses and big-endian numbers shared by the other modules. */
module Net {

  type byte = x: int | 0 <= x < 0x100
  type u16 = x: int | 0 <= x < 0x1_0000
  type u32 = x: int | 0 <= x < 0x1_0000_0000

  /** An IPv4 address as the number its four octets spell. */
  type Ip4 = u32
  /** An IPv6 address as the number its sixteen octets spell. */
  type Ip6 = x: int | 0 <= x < 0x1_0000_0000_0000_0000_0000_0000_0000_0000
  /** The 32 bytes of a public key, as a number; the source orders ids bytewise, which is this order. */
  type EndpointId = x: int |
    0 <= x < 0x1_0000_0000_0000_0000_0000_0000_0000_0000_0000_0000_0000_0000_0000_0000_0000_0000

  /** The address pair a node binds on its TUN device (`OwnVips`). */
  datatype Vips = Vips(v4: Ip4, v6: Ip6)

  datatype Option<+T> = None | Some(value: T)

  function Min(a: int, b: int): int {
    if a <= b then a else b
  }

  function Pow256(n: nat): (p: nat)
    ensures p > 0
  {
    if n == 0 then 1 else 0x100 * Pow256(n - 1)
  }

  /** The n-byte big-endian spelling of x (`to_be_bytes`, `octets`). */
  function BE(n: nat, x: nat): (s: seq<byte>)
    requires x < Pow256(n)
    ensures |s| == n
  {
    if n == 0 then [] else BE(n - 1, x / 0x100) + [x % 0x100]
  }

  /** The number a big-endian byte string spells (`from_be_bytes`). */
  function FromBE(s: seq<byte>): (x: nat)
    ensures x < Pow256(|s|)
  {
    if s == [] then 0 else FromBE(s[..|s| - 1]) * 0x100 + s[|s| - 1]
  }

  lemma {:induction false} FromBEofBE(n: nat, x: nat)
    requires x < Pow256(n)
    ensures FromBE(BE(n, x)) == x
  {
    if n > 0 {
      FromBEofBE(n - 1, x / 0x100);
      assert BE(n, x)[..n - 1] == BE(n - 1, x / 0x100);
    }
  }

  lemma {:induction false} BEofFromBE(s: seq<byte>)
    ensures BE(|s|, FromBE(s)) == s
  {
    if s != [] {
      var init := s[..|s| - 1];
      BEofFromBE(init);
      assert FromBE(s) / 0x100 == FromBE(init) && FromBE(s) % 0x100 == s[|s| - 1];
      assert s == init + [s[|s| - 1]];
    }
  }

  lemma PowersOf256()
    ensures Pow256(1) == 0x100 && Pow256(2) == 0x1_0000 && Pow256(4) == 0x1_0000_0000
    ensures Pow256(16) == 0x1_0000_0000_0000_0000_0000_0000_0000_0000
    ensures Pow256(32) == 0x1_0000_0000_0000_0000_0000_0000_0000_0000_0000_0000_0000_0000_0000_0000_0000_0000
  {
    assert Pow256(4) == 0x1_0000_0000;
    Pow256Add(4, 4);
    Pow256Add(8, 8);
    Pow256Add(16, 16);
  }

  lemma {:induction false} Pow256Add(a: nat, b: nat)
    ensures Pow256(a + b) == Pow256(a) * Pow256(b)
  {
    if a > 0 {
      Pow256Add(a - 1, b);
    }
  }

  /** The octets of an address, or of any 32-bit number. */
  function BE4(n: u32): (s: seq<byte>)
    ensures |s| == 4 && FromBE(s) == n
  {
    PowersOf256();
    FromBEofBE(4, n);
    BE(4, n)
  }

  function BE16(ip: Ip6): (s: seq<byte>)
    ensures |s| == 16 && FromBE(s) == ip
  {
    PowersOf256();
    FromBEofBE(16, ip);
    BE(16, ip)
  }
}
