/** Crockford Base32 and the check symbol of short codes (src/contacts.rs). */
module Crockford {
  import opened Net
  import opened Bits

  const ALPHABET: string := "0123456789ABCDEFGHJKMNPQRSTVWXYZ"

  /** ALPHABET[d], by the runs of letters it leaves I, L, O and U out of. */
  function Symbol(d: nat): char
    requires d < 32
  {
    if d < 10 then '0' + d as char
    else if d < 18 then 'A' + (d - 10) as char
    else if d < 20 then 'J' + (d - 18) as char
    else if d < 22 then 'M' + (d - 20) as char
    else if d < 27 then 'P' + (d - 22) as char
    else 'V' + (d - 27) as char
  }

  lemma SymbolIsAlphabet()
    ensures |ALPHABET| == 32 && forall d :: 0 <= d < 32 ==> ALPHABET[d] == Symbol(d)
  {
  }

  function Upper(c: char): char {
    if 'a' <= c <= 'z' then c - 32 as char else c
  }

  /** What one character stands for; the source compares the low byte of the upper-cased character. */
  function Value(c: char): Option<nat> {
    var u := Upper(c) as int % 0x100;
    if 0x30 <= u <= 0x39 then Some(u - 0x30)
    else if 0x41 <= u <= 0x48 then Some(u - 0x41 + 10)
    else if 0x4A <= u <= 0x4B then Some(u - 0x4A + 18)
    else if 0x4D <= u <= 0x4E then Some(u - 0x4D + 20)
    else if 0x50 <= u <= 0x54 then Some(u - 0x50 + 22)
    else if 0x56 <= u <= 0x5A then Some(u - 0x56 + 27)
    else None
  }

  predicate IsSymbol(c: char) {
    Value(c).Some? && Value(c).value < 32 && Symbol(Value(c).value) == c
  }

  /** The value is the position in the alphabet, if the byte is there. */
  lemma ValueIsPosition(c: char)
    ensures match Value(c)
            case Some(v) => v < 32 && ALPHABET[v] as int == Upper(c) as int % 0x100
            case None => forall i :: 0 <= i < 32 ==> ALPHABET[i] as int != Upper(c) as int % 0x100
  {
    SymbolIsAlphabet();
    forall i | 0 <= i < 32 && Value(c).None? ensures ALPHABET[i] as int != Upper(c) as int % 0x100 {
      assert ALPHABET[i] == Symbol(i);
    }
  }

  lemma ValueIsSmall(c: char)
    ensures Value(c).Some? ==> Value(c).value < 32
  {
  }

  lemma SymbolsIncrease(i: nat, j: nat)
    requires i < j < 32
    ensures Symbol(i) < Symbol(j) < 'a'
  {
  }

  lemma ValueOfSymbol(i: nat)
    requires i < 32
    ensures Value(Symbol(i)) == Some(i)
  {
  }

  /** I, L, O and U stand for nothing. */
  lemma FourLettersLeftOut()
    ensures Value('I') == Value('L') == Value('O') == Value('U') == None
    ensures Value('i') == Value('l') == Value('o') == Value('u') == None
  {
  }

  lemma LowerSymbol(i: nat)
    requires 10 <= i < 32
    ensures 'A' <= Symbol(i) <= 'Z' && Value(Symbol(i) + 32 as char) == Some(i)
  {
  }

  /** Symbol i of the alphabet stands for i in either case. */
  lemma CaseDoesNotMatter(i: nat)
    requires i < 32
    ensures Value(ALPHABET[i]) == Some(i)
    ensures i >= 10 ==> 'A' <= ALPHABET[i] <= 'Z' && Value(ALPHABET[i] + 32 as char) == Some(i)
  {
    SymbolIsAlphabet();
    ValueOfSymbol(i);
    if i >= 10 {
      LowerSymbol(i);
    }
  }

  /** A character beyond ASCII is not refused but stands for what its low byte does: U+0130 reads as a zero. */
  lemma LowByteDecides(c: char, low: char)
    requires c >= '\U{80}' && low as int == c as int % 0x100 && !('a' <= low <= 'z')
    ensures Value(c) == Value(low)
    ensures Value('\U{130}') == Some(0)
  {
  }

  // ---------------------------------------------------------------- digits

  /** The number a sequence of 5-bit digits spells, most significant first. */
  function FromBase32(digits: seq<nat>): nat {
    if digits == [] then 0 else FromBase32(digits[..|digits| - 1]) * 32 + digits[|digits| - 1]
  }

  /** What the characters stand for, if each stands for something. */
  function Digits(s: string): Option<seq<nat>> {
    if s == "" then Some([])
    else
      var init, last := Digits(s[..|s| - 1]), Value(s[|s| - 1]);
      if init.None? || last.None? then None else Some(init.value + [last.value])
  }

  /** Written with the alphabet's own symbols. */
  predicate Canonical(s: string) {
    s == "" || (Canonical(s[..|s| - 1]) && IsSymbol(s[|s| - 1]))
  }

  lemma {:induction false} DigitsAreBounded(s: string)
    requires Digits(s).Some?
    ensures |Digits(s).value| == |s| && forall i :: 0 <= i < |s| ==> Digits(s).value[i] < 32
  {
    if s != "" {
      DigitsAreBounded(s[..|s| - 1]);
      ValueIsSmall(s[|s| - 1]);
    }
  }

  lemma DigitsAppend(s: string, c: char)
    ensures Digits(s + [c]) == if Digits(s).None? || Value(c).None? then None else Some(Digits(s).value + [Value(c).value])
  {
    assert (s + [c])[..|s|] == s;
  }

  lemma FromBase32Append(digits: seq<nat>, d: nat)
    ensures FromBase32(digits + [d]) == FromBase32(digits) * 32 + d
  {
    assert (digits + [d])[..|digits|] == digits;
  }

  lemma FromBEAppend(data: seq<byte>, b: byte)
    ensures FromBE(data + [b]) == FromBE(data) * 0x100 + b
  {
    assert (data + [b])[..|data|] == data;
  }

  // ---------------------------------------------------------------- the codec's meaning

  /** `code` spells the bits of `data` in 5-bit digits, the last one filled up with zero bits. */
  ghost predicate Spells(code: string, data: seq<byte>) {
    && Canonical(code) && Digits(code).Some?
    && |code| == (8 * |data| + 4) / 5
    && FromBase32(Digits(code).value) == Shl(FromBE(data), 5 * |code| - 8 * |data|)
  }

  /** `data` is the whole bytes among the bits `s` spells; what is left over is dropped. */
  ghost predicate Reads(s: string, data: seq<byte>) {
    && Digits(s).Some?
    && |data| == 5 * |s| / 8
    && FromBE(data) == Shr(FromBase32(Digits(s).value), 5 * |s| % 8)
  }

  // ---------------------------------------------------------------- the two loops

  /** Nothing lost: what was read so far is what was written so far and the accumulator's low bits. */
  ghost predicate Balanced(read: nat, written: nat, buf: u32, bits: nat) {
    read == Shl(written, bits) + Low(buf, bits)
  }

  /** The accumulator with `width` bits d shifted in, what leaves its 32 bits dropped. */
  function ShiftIn(buf: u32, width: nat, d: nat): u32 {
    (Shl(buf, width) + d) % 0x1_0000_0000
  }

  lemma SmallPowers()
    ensures Pow2(1) == 2 && Pow2(2) == 4 && Pow2(3) == 8 && Pow2(4) == 16 && Pow2(5) == 32 && Pow2(8) == 0x100
  {
    assert Pow2(4) == 16;
  }

  lemma ShiftInBalanced(read: nat, written: nat, buf: u32, bits: nat, width: nat, d: nat)
    requires Balanced(read, written, buf, bits) && bits + width <= 32 && d < Pow2(width)
    ensures Balanced(Shl(read, width) + d, written, ShiftIn(buf, width, d), bits + width)
  {
    TruncationKeepsLow(Shl(buf, width) + d, bits + width);
    LowOfShifted(buf, bits, width, d);
    ShlAdd(Shl(written, bits), Low(buf, bits), width);
    ShlShl(written, bits, width);
  }

  lemma TakeBalanced(read: nat, written: nat, buf: u32, was: nat, bits: nat, width: nat, m: nat)
    requires Balanced(read, written, buf, was) && was == bits + width && m == Pow2(width)
    ensures Balanced(read, Shl(written, width) + Shr(buf, bits) % m, buf, bits)
  {
    TakeTop(buf, was, bits, width);
    ShlShl(written, width, bits);
    ShlAdd(Shl(written, width), Shr(buf, bits) % Pow2(width), bits);
  }

  lemma PadBalanced(read: nat, written: nat, buf: u32, bits: nat, d: nat)
    requires Balanced(read, written, buf, bits) && 0 < bits < 5 && d == ShiftIn(buf, 5 - bits, 0) % 32
    ensures d < 32 && Shl(written, 5) + d == Shl(read, 5 - bits)
  {
    ShiftInBalanced(read, written, buf, bits, 5 - bits, 0);
    SmallPowers();
    LowIsMod(ShiftIn(buf, 5 - bits, 0), 5);
  }

  lemma AppendSymbol(out: string, digits: seq<nat>, d: nat)
    requires Canonical(out) && Digits(out) == Some(digits) && d < 32
    ensures Canonical(out + [Symbol(d)]) && Digits(out + [Symbol(d)]) == Some(digits + [d])
    ensures FromBase32(digits + [d]) == Shl(FromBase32(digits), 5) + d
  {
    SmallPowers();
    ShlIsTimes(FromBase32(digits), 5);
    ValueOfSymbol(d);
    assert (out + [Symbol(d)])[..|out|] == out;
    DigitsAppend(out, Symbol(d));
    FromBase32Append(digits, d);
  }

  lemma EatByte(data: seq<byte>, i: nat, written: nat, buf: u32, bits: nat)
    requires i < |data| && bits < 5 && Balanced(FromBE(data[..i]), written, buf, bits)
    ensures Balanced(FromBE(data[..i + 1]), written, ShiftIn(buf, 8, data[i]), bits + 8)
  {
    SmallPowers();
    ShlIsTimes(FromBE(data[..i]), 8);
    FromBEAppend(data[..i], data[i]);
    assert data[..i] + [data[i]] == data[..i + 1];
    ShiftInBalanced(FromBE(data[..i]), written, buf, bits, 8, data[i]);
  }

  lemma TakeFive(read: nat, written: nat, buf: u32, bits: nat)
    requires Balanced(read, written, buf, bits + 5)
    ensures Balanced(read, Shl(written, 5) + Shr(buf, bits) % 32, buf, bits)
  {
    SmallPowers();
    TakeBalanced(read, written, buf, bits + 5, bits, 5, 32);
  }

  lemma WriteDigit(read: nat, out: string, digits: seq<nat>, buf: u32, was: nat, bits: nat, d: nat)
    requires Balanced(read, FromBase32(digits), buf, was) && was == bits + 5 && d == Shr(buf, bits) % 32
    requires Canonical(out) && Digits(out) == Some(digits)
    ensures Canonical(out + [Symbol(d)]) && Digits(out + [Symbol(d)]) == Some(digits + [d])
    ensures Balanced(read, FromBase32(digits + [d]), buf, bits)
  {
    TakeFive(read, FromBase32(digits), buf, bits);
    AppendSymbol(out, digits, d);
  }

  lemma WritePadding(data: seq<byte>, out: string, digits: seq<nat>, bits: nat, d: nat)
    requires 0 < bits < 5 && 5 * |out| + bits == 8 * |data| && d < 32
    requires Canonical(out) && Digits(out) == Some(digits)
    requires Shl(FromBase32(digits), 5) + d == Shl(FromBE(data), 5 - bits)
    ensures Spells(out + [Symbol(d)], data)
  {
    AppendSymbol(out, digits, d);
    assert 5 * |out + [Symbol(d)]| - 8 * |data| == 5 - bits;
  }

  lemma NothingToPad(data: seq<byte>, out: string, digits: seq<nat>, buf: u32)
    requires Balanced(FromBE(data), FromBase32(digits), buf, 0) && 5 * |out| == 8 * |data|
    requires Canonical(out) && Digits(out) == Some(digits)
    ensures Spells(out, data)
  {
  }

  /** The encoder's state: n bits read, spelling the number `read`. */
  ghost predicate Encoding(read: nat, n: nat, out: string, buf: u32, bits: nat) {
    && Canonical(out) && Digits(out).Some?
    && 5 * |out| + bits == n
    && read == Shl(FromBase32(Digits(out).value), bits) + Low(buf, bits)
  }

  lemma EncodeByte(data: seq<byte>, i: nat, out: string, buf: u32, bits: nat)
    requires i < |data| && bits < 5 && Encoding(FromBE(data[..i]), 8 * i, out, buf, bits)
    ensures Encoding(FromBE(data[..i + 1]), 8 * (i + 1), out, ShiftIn(buf, 8, data[i]), bits + 8)
  {
    EatByte(data, i, FromBase32(Digits(out).value), buf, bits);
  }

  lemma EncodeDigit(read: nat, n: nat, out: string, buf: u32, bits: nat)
    requires Encoding(read, n, out, buf, bits + 5)
    ensures Encoding(read, n, out + [Symbol(Shr(buf, bits) % 32)], buf, bits)
  {
    WriteDigit(read, out, Digits(out).value, buf, bits + 5, bits, Shr(buf, bits) % 32);
  }

  lemma EncodePadding(data: seq<byte>, out: string, buf: u32, bits: nat)
    requires 0 < bits < 5 && Encoding(FromBE(data), 8 * |data|, out, buf, bits)
    ensures Spells(out + [Symbol(ShiftIn(buf, 5 - bits, 0) % 32)], data)
  {
    var d := ShiftIn(buf, 5 - bits, 0) % 32;
    PadBalanced(FromBE(data), FromBase32(Digits(out).value), buf, bits, d);
    WritePadding(data, out, Digits(out).value, bits, d);
  }

  lemma EncodeNoPadding(data: seq<byte>, out: string, buf: u32)
    requires Encoding(FromBE(data), 8 * |data|, out, buf, 0)
    ensures Spells(out, data)
  {
    NothingToPad(data, out, Digits(out).value, buf);
  }

  /** `encode_crockford`, with its 32-bit accumulator. */
  method EncodeCrockford(data: seq<byte>) returns (out: string)
    ensures Spells(out, data)
  {
    var buf: u32, bits: nat := 0, 0;
    out := "";
    for i := 0 to |data|
      invariant bits < 5 && Encoding(FromBE(data[..i]), 8 * i, out, buf, bits)
    {
      EncodeByte(data, i, out, buf, bits);
      buf, bits := ShiftIn(buf, 8, data[i]), bits + 8;
      ghost var read, n := FromBE(data[..i + 1]), 8 * (i + 1);
      while bits >= 5
        invariant Encoding(read, n, out, buf, bits)
      {
        bits := bits - 5;
        EncodeDigit(read, n, out, buf, bits);
        out := out + [Symbol(Shr(buf, bits) % 32)];
      }
    }
    assert data[..|data|] == data;
    if bits > 0 {
      EncodePadding(data, out, buf, bits);
      out := out + [Symbol(ShiftIn(buf, 5 - bits, 0) % 32)];
    } else {
      EncodeNoPadding(data, out, buf);
    }
  }

  // ---------------------------------------------------------------- decoding

  /** The decoder's state after the first characters, which spell `read` in n bits. */
  ghost predicate Decoding(read: nat, n: nat, out: seq<byte>, buf: u32, bits: nat) {
    8 * |out| + bits == n && read == Shl(FromBE(out), bits) + Low(buf, bits)
  }

  lemma DigitsOfPrefix(s: string, i: nat)
    requires i < |s|
    ensures Digits(s[..i + 1]) ==
            if Digits(s[..i]).None? || Value(s[i]).None? then None else Some(Digits(s[..i]).value + [Value(s[i]).value])
  {
    assert s[..i] + [s[i]] == s[..i + 1];
    DigitsAppend(s[..i], s[i]);
  }

  lemma {:induction false} NoValueNoDigits(s: string, i: nat)
    requires i < |s| && Value(s[i]).None?
    ensures Digits(s).None?
  {
    if i < |s| - 1 {
      NoValueNoDigits(s[..|s| - 1], i);
    }
  }

  lemma ReadDigit(digits: seq<nat>, n: nat, out: seq<byte>, buf: u32, bits: nat, v: nat)
    requires Decoding(FromBase32(digits), n, out, buf, bits) && bits < 8 && v < 32
    ensures Decoding(FromBase32(digits + [v]), n + 5, out, ShiftIn(buf, 5, v), bits + 5)
  {
    SmallPowers();
    ShlIsTimes(FromBase32(digits), 5);
    FromBase32Append(digits, v);
    ShiftInBalanced(FromBase32(digits), FromBE(out), buf, bits, 5, v);
  }

  /** The first i characters are decoded. */
  ghost predicate DecodedTo(s: string, i: nat, out: seq<byte>, buf: u32, bits: nat) {
    && i <= |s| && Digits(s[..i]).Some?
    && 8 * |out| + bits == 5 * i
    && FromBase32(Digits(s[..i]).value) == Shl(FromBE(out), bits) + Low(buf, bits)
  }

  lemma DecodeCharacter(s: string, i: nat, out: seq<byte>, buf: u32, bits: nat)
    requires i < |s| && bits < 8 && DecodedTo(s, i, out, buf, bits) && Value(s[i]).Some?
    ensures DecodedTo(s, i + 1, out, ShiftIn(buf, 5, Value(s[i]).value), bits + 5)
  {
    DigitsOfPrefix(s, i);
    ValueIsSmall(s[i]);
    ReadDigit(Digits(s[..i]).value, 5 * i, out, buf, bits, Value(s[i]).value);
  }

  lemma WriteByte(read: nat, n: nat, out: seq<byte>, buf: u32, bits: nat)
    requires Decoding(read, n, out, buf, bits + 8)
    ensures Decoding(read, n, out + [Shr(buf, bits) % 0x100], buf, bits)
  {
    SmallPowers();
    TakeBalanced(read, FromBE(out), buf, bits + 8, bits, 8, 0x100);
    ShlIsTimes(FromBE(out), 8);
    FromBEAppend(out, Shr(buf, bits) % 0x100);
  }

  lemma DecodeByte(s: string, i: nat, out: seq<byte>, buf: u32, bits: nat)
    requires DecodedTo(s, i, out, buf, bits + 8)
    ensures DecodedTo(s, i, out + [Shr(buf, bits) % 0x100], buf, bits)
  {
    WriteByte(FromBase32(Digits(s[..i]).value), 5 * i, out, buf, bits);
  }

  lemma WholePart(read: nat, whole: nat, buf: u32, bits: nat)
    requires read == Shl(whole, bits) + Low(buf, bits)
    ensures Shr(read, bits) == whole
  {
    LowIsMod(buf, bits);
    ShrShl(whole, Low(buf, bits), bits);
  }

  lemma DecodedAll(s: string, out: seq<byte>, buf: u32, bits: nat)
    requires bits < 8 && DecodedTo(s, |s|, out, buf, bits)
    ensures Reads(s, out)
  {
    assert s[..|s|] == s;
    WholePart(FromBase32(Digits(s).value), FromBE(out), buf, bits);
  }

  /** `decode_crockford`: None is its "invalid character in short code". */
  method DecodeCrockford(s: string) returns (r: Option<seq<byte>>)
    ensures r.Some? <==> Digits(s).Some?
    ensures r.Some? ==> Reads(s, r.value)
  {
    var buf: u32, bits: nat := 0, 0;
    var out: seq<byte> := [];
    for i := 0 to |s|
      invariant bits < 8 && DecodedTo(s, i, out, buf, bits)
    {
      var v := Value(s[i]);
      if v.None? {
        NoValueNoDigits(s, i);
        return None;
      }
      DecodeCharacter(s, i, out, buf, bits);
      buf, bits := ShiftIn(buf, 5, v.value), bits + 5;
      while bits >= 8
        invariant DecodedTo(s, i + 1, out, buf, bits)
      {
        bits := bits - 8;
        DecodeByte(s, i + 1, out, buf, bits);
        out := out + [Shr(buf, bits) % 0x100];
      }
    }
    DecodedAll(s, out, buf, bits);
    r := Some(out);
  }

  // ---------------------------------------------------------------- round trip

  lemma SameNumberSameBytes(a: seq<byte>, b: seq<byte>)
    requires |a| == |b| && FromBE(a) == FromBE(b)
    ensures a == b
  {
    BEofFromBE(a);
    BEofFromBE(b);
  }

  lemma {:induction false} SameDigits(a: seq<nat>, b: seq<nat>)
    requires |a| == |b| && FromBase32(a) == FromBase32(b)
    requires forall i :: 0 <= i < |a| ==> a[i] < 32 && b[i] < 32
    ensures a == b
  {
    if a != [] {
      var k := |a| - 1;
      assert a[k] < 32 && b[k] < 32;
      SameDigits(a[..k], b[..k]);
      assert a == a[..k] + [a[k]] && b == b[..k] + [b[k]];
    }
  }

  /** What is read from any spelling of some bytes' bits is those bytes. */
  lemma RoundTrip(code: string, data: seq<byte>, s: string, back: seq<byte>)
    requires Spells(code, data) && Reads(s, back) && Digits(s) == Digits(code)
    ensures back == data
  {
    DigitsAreBounded(s);
    DigitsAreBounded(code);
    var pad := 5 * |code| - 8 * |data|;
    assert 5 * |code| % 8 == pad && 5 * |code| / 8 == |data|;
    ShrShl(FromBE(data), 0, pad);
    SameNumberSameBytes(back, data);
  }

  /** One spelling for each byte string, and one byte string for each spelling. */
  lemma SpellingIsUnique(code: string, other: string, data: seq<byte>)
    requires Spells(code, data) && Spells(other, data)
    ensures code == other
  {
    DigitsAreBounded(code);
    DigitsAreBounded(other);
    SameDigits(Digits(code).value, Digits(other).value);
    SameCanonical(code, other);
  }

  lemma {:induction false} SameCanonical(a: string, b: string)
    requires Canonical(a) && Canonical(b) && Digits(a).Some? && Digits(a) == Digits(b)
    ensures a == b
  {
    DigitsAreBounded(a);
    DigitsAreBounded(b);
    if a != "" {
      var k := |a| - 1;
      var da, db := Digits(a).value, Digits(b).value;
      assert da[..k] == Digits(a[..k]).value && db[..k] == Digits(b[..k]).value;
      assert da[k] == Value(a[k]).value && db[k] == Value(b[k]).value;
      SameCanonical(a[..k], b[..k]);
      assert a == a[..k] + [a[k]] && b == b[..k] + [b[k]];
    }
  }
}
