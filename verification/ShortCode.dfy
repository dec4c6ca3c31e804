/** Short codes: the check symbol, the grouped spelling and the parser (src/contacts.rs). */
module ShortCode {
  import opened Net
  import opened Arith
  import opened Bits
  import opened Crockford
  import opened Text

  // ---------------------------------------------------------------- check symbol

  /** The sum of the bytes with alternating signs, the last one positive. */
  function AltSum(data: seq<byte>): int {
    if data == [] then 0 else data[|data| - 1] - AltSum(data[..|data| - 1])
  }

  function Check(data: seq<byte>): char {
    Symbol(AltSum(data) % 32)
  }

  lemma Congruent(a: int, b: int, k: int)
    requires a == b + 32 * k
    ensures a % 32 == b % 32
  {
  }

  lemma HashStep(x: u32, sum: int, b: byte)
    requires x % 32 == sum % 32
    ensures ((x * 31 + b) % 0x1_0000_0000) % 32 == (b - sum) % 32
  {
    ModOfMod(x * 31 + b, 0x1_0000_0000, 0x800_0000, 32);
    var d := x / 32 - sum / 32;
    assert x == sum + 32 * d;
    Congruent(x * 31 + b, b - sum, x - d);
  }

  /** `check_symbol`: a wrapping 32-bit hash of factor 31, modulo 32. */
  method CheckSymbol(data: seq<byte>) returns (c: char)
    ensures c == Check(data)
  {
    var x: u32 := 0;
    for i := 0 to |data|
      invariant x % 32 == AltSum(data[..i]) % 32
    {
      assert data[..i + 1][..i] == data[..i];
      HashStep(x, AltSum(data[..i]), data[i]);
      x := (x * 31 + data[i]) % 0x1_0000_0000;
    }
    assert data[..|data|] == data;
    c := Symbol(x % 32);
  }

  lemma SameSymbol(a: int, b: int)
    ensures Symbol(a % 32) == Symbol(b % 32) <==> (a - b) % 32 == 0
  {
    if a % 32 < b % 32 {
      SymbolsIncrease(a % 32, b % 32);
    } else if b % 32 < a % 32 {
      SymbolsIncrease(b % 32, a % 32);
    }
  }

  /** What one changed byte does to the sum. */
  lemma {:induction false} OneChange(data: seq<byte>, i: nat, b: byte)
    requires i < |data|
    ensures AltSum(data[i := b]) - AltSum(data) == if (|data| - i) % 2 == 1 then b - data[i] else data[i] - b
  {
    var k := |data| - 1;
    if i == k {
      assert data[i := b][..k] == data[..k];
    } else {
      assert data[i := b][..k] == data[..k][i := b];
      OneChange(data[..k], i, b);
    }
  }

  lemma EitherSign(d: int, e: int)
    requires d == e || d == -e
    ensures d % 32 == 0 <==> e % 32 == 0
  {
  }

  /** A one-byte change goes unnoticed exactly when the bytes differ by a multiple of 32. */
  lemma ByteChangeMissed(data: seq<byte>, i: nat, b: byte)
    requires i < |data|
    ensures Check(data[i := b]) == Check(data) <==> (b - data[i]) % 32 == 0
  {
    OneChange(data, i, b);
    var d := AltSum(data[i := b]) - AltSum(data);
    EitherSign(d, b as int - data[i]);
    SameSymbol(AltSum(data[i := b]), AltSum(data));
  }

  lemma TwiceTheDifference(a: byte, b: byte, d: int)
    requires d == 2 * (a - b) || d == 2 * (b - a)
    ensures d % 32 == 0 <==> a % 16 == b % 16
  {
  }

  /** Two neighbours exchanged go unnoticed exactly when they agree modulo 16. */
  lemma SwapMissed(data: seq<byte>, i: nat)
    requires i + 1 < |data|
    ensures Check(data[i := data[i + 1]][i + 1 := data[i]]) == Check(data) <==> data[i] % 16 == data[i + 1] % 16
  {
    var a: int, b: int := data[i], data[i + 1];
    var half := data[i := b];
    var all := half[i + 1 := a];
    OneChange(data, i, b);
    OneChange(half, i + 1, a);
    var d := AltSum(all) - AltSum(data);
    assert d == 2 * (a - b) || d == 2 * (b - a);
    TwiceTheDifference(a, b, d);
    SameSymbol(AltSum(all), AltSum(data));
  }

  // ---------------------------------------------------------------- spelling

  predicate IsSeparator(c: char) {
    c == '-' || IsWhite(c)
  }

  function Normal(c: char): char {
    match Upper(c)
    case 'I' => '1'
    case 'L' => '1'
    case 'O' => '0'
    case u => u
  }

  /** Separators filtered out, the rest normalised. */
  function Compact(s: string): string {
    if s == "" then ""
    else if IsSeparator(s[0]) then Compact(s[1..])
    else [Normal(s[0])] + Compact(s[1..])
  }

  lemma {:induction false} CompactAppend(s: string, t: string)
    ensures Compact(s + t) == Compact(s) + Compact(t)
  {
    if s == "" {
      assert s + t == t;
    } else {
      assert (s + t)[1..] == s[1..] + t;
      CompactAppend(s[1..], t);
    }
  }

  lemma {:induction false} CompactOfTrimStart(s: string)
    ensures Compact(TrimStart(s)) == Compact(s)
  {
    if s != "" && IsWhite(s[0]) {
      CompactOfTrimStart(s[1..]);
    }
  }

  lemma {:induction false} CompactOfTrimEnd(s: string)
    ensures Compact(TrimEnd(s)) == Compact(s)
  {
    if s != "" && IsWhite(s[|s| - 1]) {
      var init, last := s[..|s| - 1], s[|s| - 1..];
      CompactOfTrimEnd(init);
      assert s == init + last;
      CompactAppend(init, last);
      assert Compact(last) == "";
    }
  }

  lemma CompactOfTrim(s: string)
    ensures Compact(Trim(s)) == Compact(s)
  {
    CompactOfTrimStart(s);
    CompactOfTrimEnd(TrimStart(s));
  }

  /** The looks a symbol may take: either case, and I, L and O for the digits they resemble. */
  predicate LooksLike(c: char, symbol: char) {
    || Upper(c) == symbol
    || (symbol == '1' && c in "iIlL")
    || (symbol == '0' && c in "oO")
  }

  /** `token` shows the symbols of `code` in order, separators strewn in at will. */
  predicate Shows(token: string, code: string) {
    if token == "" then code == ""
    else if IsSeparator(token[0]) then Shows(token[1..], code)
    else code != "" && LooksLike(token[0], code[0]) && Shows(token[1..], code[1..])
  }

  lemma SymbolsAreNormal(c: char)
    requires IsSymbol(c)
    ensures !IsSeparator(c) && Upper(c) == c && c != 'I' && c != 'L' && c != 'O' && c < 'a'
  {
    AlnumIsNotWhite(c);
  }

  lemma NormalIsTheLook(c: char, symbol: char)
    requires IsSymbol(symbol)
    ensures LooksLike(c, symbol) <==> Normal(c) == symbol
  {
    SymbolsAreNormal(symbol);
  }

  /** The parser's normalisation reads exactly the symbols a token shows. */
  lemma {:induction false} CompactIsWhatItShows(token: string, code: string)
    requires forall i :: 0 <= i < |code| ==> IsSymbol(code[i])
    ensures Shows(token, code) <==> Compact(token) == code
  {
    if token != "" && IsSeparator(token[0]) {
      CompactIsWhatItShows(token[1..], code);
    } else if token != "" && code != "" {
      assert IsSymbol(code[0]);
      NormalIsTheLook(token[0], code[0]);
      CompactIsWhatItShows(token[1..], code[1..]);
      assert code == [code[0]] + code[1..];
      assert Compact(token) == [Normal(token[0])] + Compact(token[1..]);
      assert Compact(token)[1..] == Compact(token[1..]);
    }
  }

  /** Groups of four, joined with dashes. */
  function Grouped(s: string): string {
    if |s| <= 4 then s else s[..4] + "-" + Grouped(s[4..])
  }

  lemma {:induction false} PlainShowsItself(s: string)
    requires forall i :: 0 <= i < |s| ==> IsSymbol(s[i])
    ensures Shows(s, s)
  {
    if s != "" {
      assert IsSymbol(s[0]);
      SymbolsAreNormal(s[0]);
      PlainShowsItself(s[1..]);
    }
  }

  lemma {:induction false} CompactOfGrouped(s: string)
    requires forall i :: 0 <= i < |s| ==> IsSymbol(s[i])
    ensures Compact(Grouped(s)) == s
  {
    if |s| <= 4 {
      PlainShowsItself(s);
      CompactIsWhatItShows(s, s);
    } else {
      var group, rest := s[..4], s[4..];
      CompactOfGrouped(rest);
      PlainShowsItself(group);
      CompactIsWhatItShows(group, group);
      CompactAppend("-", Grouped(rest));
      CompactAppend(group, "-" + Grouped(rest));
      assert Compact("-") == "";
      assert group + ("-" + Grouped(rest)) == Grouped(s);
      assert s == group + rest;
    }
  }

  lemma {:induction false} LengthOfGrouped(s: string)
    requires s != ""
    ensures |Grouped(s)| == |s| + (|s| - 1) / 4
  {
    if |s| > 4 {
      LengthOfGrouped(s[4..]);
    }
  }

  /** A dash after every four symbols, and none at the end. */
  lemma {:induction false} DashesOfGrouped(s: string, k: nat)
    requires k < |Grouped(s)| && forall i :: 0 <= i < |s| ==> IsSymbol(s[i])
    ensures Grouped(s)[k] == '-' <==> k % 5 == 4
  {
    if k < |s| {
      assert IsSymbol(s[k]);
      SymbolsAreNormal(s[k]);
    }
    if |s| > 4 && k >= 5 {
      DashesOfGrouped(s[4..], k - 5);
      assert Grouped(s)[k] == Grouped(s[4..])[k - 5];
    }
  }

  // ---------------------------------------------------------------- codes of ids

  /** The 53 symbols of an id: 52 for its 32 bytes and the check symbol. */
  ghost predicate IsPlainCode(plain: string, id: seq<byte>) {
    |plain| == 53 && Spells(plain[..52], id) && plain[52] == Check(id)
  }

  lemma {:induction false} CanonicalSymbols(s: string, i: nat)
    requires Canonical(s) && i < |s|
    ensures IsSymbol(s[i])
  {
    if i < |s| - 1 {
      CanonicalSymbols(s[..|s| - 1], i);
    }
  }

  lemma PlainCodeSymbols(plain: string, id: seq<byte>)
    requires IsPlainCode(plain, id)
    ensures forall i :: 0 <= i < |plain| ==> IsSymbol(plain[i])
  {
    ValueOfSymbol(AltSum(id) % 32);
    forall i | 0 <= i < |plain| ensures IsSymbol(plain[i]) {
      if i < 52 {
        CanonicalSymbols(plain[..52], i);
      }
    }
  }

  /** `encode_short_code` of a 32-byte id. */
  method EncodeShortCode(id: seq<byte>) returns (code: string, ghost plain: string)
    requires |id| == 32
    ensures IsPlainCode(plain, id) && code == Grouped(plain)
    ensures |code| == 66 && IsPlainCode(Compact(code), id)
  {
    var raw := EncodeCrockford(id);
    var check := CheckSymbol(id);
    plain := raw + [check];
    assert plain[..52] == raw;
    PlainCodeSymbols(plain, id);
    CompactOfGrouped(plain);
    LengthOfGrouped(plain);
    code := Grouped(raw + [check]);
  }

  // ---------------------------------------------------------------- parsing

  /** Panics stands for the byte split inside a last character that takes several bytes. */
  datatype Parsed = Id(bytes: seq<byte>) | InvalidCharacter | CheckMismatch | InvalidId | NotACode | Panics

  lemma {:induction false} DigitsBelow(digits: seq<nat>)
    requires forall i :: 0 <= i < |digits| ==> digits[i] < 32
    ensures FromBase32(digits) < Pow2(5 * |digits|)
  {
    if digits != [] {
      var k := |digits| - 1;
      assert digits[k] < 32;
      DigitsBelow(digits[..k]);
      SmallPowers();
      Pow2Add(5 * k, 5);
    }
  }

  lemma {:induction false} Pow256IsPow2(n: nat)
    ensures Pow256(n) == Pow2(8 * n)
  {
    if n > 0 {
      Pow256IsPow2(n - 1);
      SmallPowers();
      Pow2Add(8, 8 * (n - 1));
    }
  }

  lemma QuotientBelow(a: nat, m: nat, n: nat)
    requires m > 0 && a < n * m
    ensures a / m < n
  {
    assert (a / m) * m <= a < n * m;
  }

  /** The bytes a payload stands for. */
  ghost function Payload(s: string): (r: Option<seq<byte>>)
    ensures r.Some? <==> Digits(s).Some?
    ensures r.Some? ==> Reads(s, r.value)
  {
    if Digits(s).None? then None
    else
      var bits, whole := FromBase32(Digits(s).value), 5 * |s| / 8;
      PayloadFits(s);
      FromBEofBE(whole, Shr(bits, 5 * |s| % 8));
      Some(BE(whole, Shr(bits, 5 * |s| % 8)))
  }

  lemma PayloadFits(s: string)
    requires Digits(s).Some?
    ensures Shr(FromBase32(Digits(s).value), 5 * |s| % 8) < Pow256(5 * |s| / 8)
  {
    DigitsAreBounded(s);
    DigitsBelow(Digits(s).value);
    WholeBytesFit(FromBase32(Digits(s).value), 5 * |s|, 5 * |s| / 8, 5 * |s| % 8);
  }

  lemma WholeBytesFit(bits: nat, n: nat, whole: nat, left: nat)
    requires n == 8 * whole + left && bits < Pow2(n)
    ensures Shr(bits, left) < Pow256(whole)
  {
    Pow256IsPow2(whole);
    Pow2Add(8 * whole, left);
    ShrIsDiv(bits, left);
    QuotientBelow(bits, Pow2(left), Pow256(whole));
  }

  ghost function Accepted(bytes: seq<byte>, valid: seq<byte> -> bool): Parsed {
    if valid(bytes) then Id(bytes) else InvalidId
  }

  /** What the parser answers for the normalised characters of a token no other format claims. */
  ghost function Answer(compact: string, valid: seq<byte> -> bool): Parsed {
    if |compact| == 53 then
      var payload := Payload(compact[..52]);
      if compact[52] >= '\U{80}' then Panics
      else if payload.None? then InvalidCharacter
      else if Check(payload.value) != compact[52] then CheckMismatch
      else Accepted(payload.value, valid)
    else if |compact| == 52 && Payload(compact).Some? then Accepted(Payload(compact).value, valid)
    else NotACode
  }

  /** The characters of a token that are not separators, in order. */
  function Marks(token: string): string {
    if token == "" then ""
    else if IsSeparator(token[0]) then Marks(token[1..])
    else [token[0]] + Marks(token[1..])
  }

  predicate EndsInWideMark(token: string) {
    |Marks(token)| == 53 && Marks(token)[52] >= '\U{80}'
  }

  lemma {:induction false} CompactKeepsWidth(token: string)
    ensures |Compact(token)| == |Marks(token)|
    ensures forall i :: 0 <= i < |Marks(token)| ==> (Compact(token)[i] >= '\U{80}' <==> Marks(token)[i] >= '\U{80}')
  {
    if token != "" {
      CompactKeepsWidth(token[1..]);
      assert Normal(token[0]) >= '\U{80}' <==> token[0] >= '\U{80}';
    }
  }

  /**
   * Of the tokens no other format claims, the parser panics at those with 53 characters besides separators, the
   * last of them beyond ASCII.
   */
  lemma PanicsExactly(token: string, valid: seq<byte> -> bool)
    ensures Answer(Compact(token), valid) == Panics <==> EndsInWideMark(token)
  {
    CompactKeepsWidth(token);
  }

  /** 52 zeros, and an e with an acute accent where the check symbol belongs. */
  const ACCENTED := seq(52, (_: int) => '0') + ['\U{E9}']

  lemma AccentedPanics(valid: seq<byte> -> bool)
    ensures Answer(Compact(ACCENTED), valid) == Panics
  {
    MarksOfPlain(ACCENTED);
    PanicsExactly(ACCENTED, valid);
  }

  lemma {:induction false} MarksOfPlain(s: string)
    requires forall i :: 0 <= i < |s| ==> s[i] == '0' || s[i] == '\U{E9}'
    ensures Marks(s) == s
  {
    if s != "" {
      assert !IsSeparator('0') && !IsSeparator('\U{E9}');
      MarksOfPlain(s[1..]);
      assert s == [s[0]] + s[1..];
    }
  }

  /** `parse_endpoint_token`; `native` is the key type's own parser and `valid` its check of raw bytes. */
  method ParseEndpointToken(token: string, native: string -> Option<seq<byte>>, valid: seq<byte> -> bool)
    returns (r: Parsed)
    ensures native(Trim(token)).Some? ==> r == Id(native(Trim(token)).value)
    ensures native(Trim(token)).None? ==> r == Answer(Compact(token), valid)
    ensures r == Panics <==> native(Trim(token)).None? && EndsInWideMark(token)
  {
    PanicsExactly(token, valid);
    var t := Trim(token);
    var own := native(t);
    if own.Some? {
      return Id(own.value);
    }
    var compact := Compact(t);
    CompactOfTrim(token);
    if |compact| == 53 {
      if compact[52] >= '\U{80}' {
        return Panics;
      }
      var bytes := DecodeCrockford(compact[..52]);
      if bytes.None? {
        return InvalidCharacter;
      }
      OneReading(compact[..52], bytes.value);
      if |bytes.value| < 32 {
        return NotACode;
      }
      var id := bytes.value[..32];
      var check := CheckSymbol(id);
      if check != compact[52] {
        return CheckMismatch;
      }
      return if valid(id) then Id(id) else InvalidId;
    }
    if |compact| == 52 {
      var bytes := DecodeCrockford(compact);
      if bytes.Some? {
        OneReading(compact, bytes.value);
        if |bytes.value| >= 32 {
          var id := bytes.value[..32];
          return if valid(id) then Id(id) else InvalidId;
        }
      }
    }
    r := NotACode;
  }

  lemma OneReading(s: string, bytes: seq<byte>)
    requires |s| == 52 && Reads(s, bytes)
    ensures Payload(s) == Some(bytes) && |bytes| == 32 && bytes[..32] == bytes
  {
    SameNumberSameBytes(bytes, Payload(s).value);
  }

  lemma PayloadOfCode(code: string, id: seq<byte>)
    requires |id| == 32 && Spells(code, id)
    ensures |code| == 52 && Payload(code) == Some(id)
  {
    RoundTrip(code, id, code, Payload(code).value);
  }

  /** However the code of an id is spelled, it is parsed back to that id. */
  lemma ShortCodeRoundTrip(id: seq<byte>, plain: string, token: string, valid: seq<byte> -> bool)
    requires |id| == 32 && IsPlainCode(plain, id) && Shows(token, plain) && valid(id)
    ensures Answer(Compact(token), valid) == Id(id)
  {
    PlainCodeSymbols(plain, id);
    CompactIsWhatItShows(token, plain);
    PayloadOfCode(plain[..52], id);
    SymbolsAreNormal(plain[52]);
  }

  /** With any other check symbol, the same payload is refused. */
  lemma OtherSymbolRefused(id: seq<byte>, plain: string, token: string, symbol: char, valid: seq<byte> -> bool)
    requires |id| == 32 && IsPlainCode(plain, id) && IsSymbol(symbol) && symbol != plain[52]
    requires Shows(token, plain[..52] + [symbol])
    ensures Answer(Compact(token), valid) == CheckMismatch
  {
    PlainCodeSymbols(plain, id);
    var other := plain[..52] + [symbol];
    CompactIsWhatItShows(token, other);
    assert other[..52] == plain[..52];
    PayloadOfCode(plain[..52], id);
    SymbolsAreNormal(symbol);
  }

  /** A code without its check symbol, as older versions wrote it, is still parsed. */
  lemma LegacyCodeRoundTrip(id: seq<byte>, plain: string, token: string, valid: seq<byte> -> bool)
    requires |id| == 32 && IsPlainCode(plain, id) && Shows(token, plain[..52]) && valid(id)
    ensures Answer(Compact(token), valid) == Id(id)
  {
    PlainCodeSymbols(plain, id);
    CompactIsWhatItShows(token, plain[..52]);
    PayloadOfCode(plain[..52], id);
  }

  /** A 53-symbol token is an id's only if its last symbol is the check symbol of the bytes it spells. */
  lemma AcceptedExactly(compact: string, valid: seq<byte> -> bool, id: seq<byte>)
    requires |compact| == 53
    ensures Answer(compact, valid) == Id(id) <==>
            Reads(compact[..52], id) && compact[52] == Check(id) && valid(id)
  {
    if Reads(compact[..52], id) {
      OneReading(compact[..52], id);
      ValueOfSymbol(AltSum(id) % 32);
      SymbolsAreNormal(Check(id));
    }
  }

  // ---------------------------------------------------------------- the check symbol's value

  lemma {:induction false} ZerosSumToNothing(n: nat, data: seq<byte>)
    requires |data| == n && forall i :: 0 <= i < n ==> data[i] == 0
    ensures AltSum(data) == 0
  {
    if n > 0 {
      ZerosSumToNothing(n - 1, data[..n - 1]);
    }
  }

  /**
   * The check symbol of zeros is the zero; and adding d to a byte moves the symbol's value up by d modulo 32 when it is
   * the last, third last and so on, and down by d otherwise. That settles it for all bytes.
   */
  lemma CheckMoves(data: seq<byte>, i: nat, b: byte)
    requires i < |data|
    ensures (forall k :: 0 <= k < |data| ==> data[k] == 0) ==> Check(data) == '0'
    ensures var d := b as int - data[i] as int;
            && Value(Check(data)).Some? && Value(Check(data[i := b])).Some?
            && Value(Check(data[i := b])).value
               == (Value(Check(data)).value + (if (|data| - i) % 2 == 1 then d else -d)) % 32
  {
    if forall k :: 0 <= k < |data| ==> data[k] == 0 {
      ZerosSumToNothing(|data|, data);
    }
    OneChange(data, i, b);
    ValueOfSymbol(AltSum(data) % 32);
    ValueOfSymbol(AltSum(data[i := b]) % 32);
    ModShift(AltSum(data), AltSum(data[i := b]) - AltSum(data));
  }

  lemma ModShift(a: int, e: int)
    ensures (a + e) % 32 == (a % 32 + e) % 32
  {
    Congruent(a + e, a % 32 + e, a / 32);
  }

  // ---------------------------------------------------------------- every answer

  /** The characters spell these 32 bytes, with their check symbol behind them or, as in older codes, without. */
  ghost predicate StandsFor(compact: string, id: seq<byte>) {
    || (|compact| == 53 && Reads(compact[..52], id) && compact[52] == Check(id))
    || (|compact| == 52 && Reads(compact, id))
  }

  lemma {:induction false} UnreadableHasNoDigits(s: string)
    ensures Digits(s).None? <==> exists i :: 0 <= i < |s| && Value(s[i]).None?
  {
    if s != "" {
      var init := s[..|s| - 1];
      UnreadableHasNoDigits(init);
      if i :| 0 <= i < |init| && Value(init[i]).None? {
        assert Value(s[i]).None?;
      }
    }
  }

  /** Every answer to the normalised characters of a token no other format claims, and exactly when it is given. */
  lemma AnswersExactly(compact: string, valid: seq<byte> -> bool)
    ensures Answer(compact, valid) == Panics <==> |compact| == 53 && compact[52] >= '\U{80}'
    ensures Answer(compact, valid) == InvalidCharacter <==>
              && |compact| == 53 && compact[52] < '\U{80}'
              && exists i :: 0 <= i < 52 && Value(compact[i]).None?
    ensures Answer(compact, valid) == CheckMismatch <==>
              && |compact| == 53 && compact[52] < '\U{80}'
              && exists id :: Reads(compact[..52], id) && Check(id) != compact[52]
    ensures Answer(compact, valid) == InvalidId <==> exists id :: StandsFor(compact, id) && !valid(id)
    ensures forall id :: Answer(compact, valid) == Id(id) <==> StandsFor(compact, id) && valid(id)
    ensures Answer(compact, valid) == NotACode <==>
              || |compact| < 52 || |compact| > 53
              || (|compact| == 52 && exists i :: 0 <= i < 52 && Value(compact[i]).None?)
  {
    if |compact| == 53 {
      var s := compact[..52];
      OnlyReading(s);
      assert forall i :: 0 <= i < 52 ==> compact[i] == s[i];
      if Payload(s).Some? {
        ValueOfSymbol(AltSum(Payload(s).value) % 32);
        SymbolsAreNormal(Check(Payload(s).value));
        assert Reads(s, Payload(s).value);
        assert StandsFor(compact, Payload(s).value) <==> compact[52] == Check(Payload(s).value);
      }
    } else if |compact| == 52 {
      OnlyReading(compact);
      if Payload(compact).Some? {
        assert StandsFor(compact, Payload(compact).value);
      }
    }
  }

  lemma OnlyReading(s: string)
    requires |s| == 52
    ensures forall id :: Reads(s, id) <==> Payload(s) == Some(id)
    ensures Payload(s).None? <==> exists i :: 0 <= i < |s| && Value(s[i]).None?
  {
    UnreadableHasNoDigits(s);
    forall id | Reads(s, id) ensures Payload(s) == Some(id) {
      OneReading(s, id);
    }
  }
}
