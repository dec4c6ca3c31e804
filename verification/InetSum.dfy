/** The Internet checksum of src/tun/mod.rs (RFC 1071). */
module InetSum {
  import opened Net

  const ONES := 0xFFFF

  function Word(hi: byte, lo: byte): u16 {
    (hi as int) * 0x100 + lo
  }

  /** Big-endian 16-bit words added up; an odd last byte is the high half of its word. */
  function WordSum(data: seq<byte>): nat {
    if |data| == 0 then 0
    else if |data| == 1 then Word(data[0], 0)
    else Word(data[0], data[1]) + WordSum(data[2..])
  }

  /** The one's-complement value of a sum: its residue modulo 65535, with 65535 for the nonzero multiples. */
  function Canonical(sum: nat): (c: u16)
    ensures c % ONES == sum % ONES
    ensures c == 0 <==> sum == 0
  {
    if sum == 0 then 0 else (sum - 1) % ONES + 1
  }

  function Checksum(data: seq<byte>): u16 {
    ONES - Canonical(WordSum(data))
  }

  lemma CanonicalIsUnique(sum: nat, c: u16)
    requires c % ONES == sum % ONES && (c == 0 <==> sum == 0)
    ensures c == Canonical(sum)
  {
  }

  /** `inet_checksum`, its accumulator wrapping at 32 bits. */
  method InetChecksum(data: seq<byte>) returns (c: u16)
    ensures |data| <= 131074 ==> c == Checksum(data)
  {
    var sum: u32 := 0;
    var i := 0;
    while i + 1 < |data|
      invariant 0 <= i <= |data| && i % 2 == 0
      invariant |data| <= 131074 ==> sum + WordSum(data[i..]) == WordSum(data)
    {
      NextWord(data, i);
      sum := (sum + Word(data[i], data[i + 1])) % 0x1_0000_0000;
      i := i + 2;
    }
    if i < |data| {
      NextWord(data, i);
      sum := (sum + Word(data[i], 0)) % 0x1_0000_0000;
    }
    sum := Fold(sum);
    c := ONES - sum;
  }

  /** The carries folded back in. */
  method Fold(total: u32) returns (sum: u16)
    ensures sum == Canonical(total)
  {
    var s: u32 := total;
    while s > 0xFFFF
      invariant s % ONES == total % ONES && (s == 0 <==> total == 0)
    {
      FoldKeepsResidue(s);
      s := s % 0x1_0000 + s / 0x1_0000;
    }
    CanonicalIsUnique(total, s);
    sum := s;
  }

  lemma NextWord(data: seq<byte>, i: nat)
    requires i < |data|
    ensures i + 1 < |data| ==> WordSum(data[i..]) == Word(data[i], data[i + 1]) + WordSum(data[i + 2..])
    ensures i + 1 == |data| ==> WordSum(data[i..]) == Word(data[i], 0)
    ensures |data| <= 131074 ==> WordSum(data) < 0x1_0000_0000
  {
    SumIsBounded(data);
    if i + 1 < |data| {
      assert data[i..][2..] == data[i + 2..];
    }
  }

  lemma FoldKeepsResidue(sum: nat)
    requires sum > 0xFFFF
    ensures (sum % 0x1_0000 + sum / 0x1_0000) % ONES == sum % ONES
    ensures 0 < sum % 0x1_0000 + sum / 0x1_0000 < sum
  {
    var hi, lo := sum / 0x1_0000, sum % 0x1_0000;
    assert sum == (lo + hi) + hi * ONES;
    AddMultiple(lo + hi, hi);
  }

  lemma {:induction false} AddMultiple(a: nat, k: nat)
    ensures (a + k * ONES) % ONES == a % ONES
  {
    if k > 0 {
      AddMultiple(a, k - 1);
    }
  }

  // ---------------------------------------------------------------- the 32-bit accumulator

  lemma {:induction false} SumIsBounded(data: seq<byte>)
    ensures WordSum(data) <= (|data| / 2) * ONES + (|data| % 2) * 0xFF00
    ensures |data| <= 131074 ==> WordSum(data) < 0x1_0000_0000
  {
    if |data| >= 2 {
      SumIsBounded(data[2..]);
    }
  }

  lemma {:induction false} AllOnesSum(n: nat, data: seq<byte>)
    requires |data| == n && forall i :: 0 <= i < n ==> data[i] == 0xFF
    ensures WordSum(data) == (n / 2) * ONES + (n % 2) * 0xFF00
  {
    if n >= 2 {
      AllOnesSum(n - 2, data[2..]);
    }
  }

  /** 131074 bytes is exactly how far the 32-bit sum reaches: beyond it some buffer of every length overflows. */
  lemma SumFitsExactly(n: nat)
    ensures n <= 131074 <==> forall data: seq<byte> :: |data| == n ==> WordSum(data) < 0x1_0000_0000
  {
    if n <= 131074 {
      forall data: seq<byte> | |data| == n ensures WordSum(data) < 0x1_0000_0000 {
        SumIsBounded(data);
      }
    } else {
      var ones: seq<byte> := seq(n, i => 0xFF);
      AllOnesSum(n, ones);
      assert n / 2 >= 65537 && (n / 2 == 65537 ==> n % 2 == 1);
      assert WordSum(ones) >= 0x1_0000_0000;
    }
  }

  // ---------------------------------------------------------------- storing and verifying

  /** A 16-bit value written big-endian at an offset. */
  function Store(data: seq<byte>, off: nat, w: u16): (r: seq<byte>)
    requires off + 1 < |data|
    ensures |r| == |data| && r[off] == w / 0x100 && r[off + 1] == w % 0x100
    ensures forall i :: 0 <= i < |data| && i != off && i != off + 1 ==> r[i] == data[i]
  {
    data[off := w / 0x100][off + 1 := w % 0x100]
  }

  function WordAt(data: seq<byte>, off: nat): u16
    requires off + 1 < |data|
  {
    Word(data[off], data[off + 1])
  }

  lemma {:induction false} StoreShiftsSum(data: seq<byte>, off: nat, w: u16)
    requires off % 2 == 0 && off + 1 < |data|
    ensures WordSum(Store(data, off, w)) == WordSum(data) - WordAt(data, off) + w
  {
    if off == 0 {
      assert Store(data, off, w)[2..] == data[2..];
    } else {
      assert Store(data, off, w)[2..] == Store(data[2..], off - 2, w);
      StoreShiftsSum(data[2..], off - 2, w);
    }
  }

  /** A buffer verifies exactly when its words add up to a positive multiple of 65535. */
  lemma VerifiesWhenMultiple(data: seq<byte>)
    ensures Checksum(data) == 0 <==> WordSum(data) > 0 && WordSum(data) % ONES == 0
  {
  }

  /** Stored into its zeroed field the checksum makes the buffer verify; odd lengths and all zeros included. */
  lemma SelfVerifies(data: seq<byte>, off: nat)
    requires off % 2 == 0 && off + 1 < |data| && data[off] == 0 && data[off + 1] == 0
    ensures Checksum(Store(data, off, Checksum(data))) == 0
  {
    var sum, c := WordSum(data), Checksum(data);
    StoreShiftsSum(data, off, c);
    assert sum + c == sum - Canonical(sum) + ONES;
    assert (sum - Canonical(sum)) % ONES == 0;
    assert sum == 0 || sum >= Canonical(sum);
  }

  /** A verifying buffer with one word changed still verifies exactly when 0x0000 and 0xFFFF traded places. */
  lemma OneWordChangeIsMissed(data: seq<byte>, off: nat, w: u16)
    requires off % 2 == 0 && off + 1 < |data| && Checksum(data) == 0 && w != WordAt(data, off)
    ensures Checksum(Store(data, off, w)) == 0 <==>
            ((w == 0 && WordAt(data, off) == ONES) || (w == ONES && WordAt(data, off) == 0))
            && WordSum(Store(data, off, w)) > 0
  {
    var after := Store(data, off, w);
    StoreShiftsSum(data, off, w);
    VerifiesWhenMultiple(data);
    VerifiesWhenMultiple(after);
    var d := w - WordAt(data, off);
    assert WordSum(after) == WordSum(data) + d;
    NextMultiple(WordSum(data), d);
  }

  /** Within one modulus of a multiple there are only its two neighbours. */
  lemma NextMultiple(sum: nat, d: int)
    requires sum % ONES == 0 && 0 != d && -ONES <= d <= ONES && sum + d >= 0
    ensures (sum + d) % ONES == 0 <==> d == ONES || d == -ONES
  {
    var k := sum / ONES;
    if d > 0 {
      AddMultiple(d, k);
    } else {
      AddMultiple(ONES + d, k - 1);
    }
  }
}
