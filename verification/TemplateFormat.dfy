/** The one-pass template formatter behind `tr_fmt!` (src/i18n.rs:153-183). */
module TemplateFormat {
  import opened Net

  predicate IsDigit(c: char) { '0' <= c <= '9' }

  /** How many digits s starts with. */
  function DigitRun(s: string): (n: nat)
    ensures n <= |s|
  {
    if s != "" && IsDigit(s[0]) then 1 + DigitRun(s[1..]) else 0
  }

  function Number(digits: string): nat {
    if digits == "" then 0
    else
      var last := digits[|digits| - 1];
      Number(digits[..|digits| - 1]) * 10 + if IsDigit(last) then (last - '0') as nat else 0
  }

  const USIZE_LIMIT: nat := 0x1_0000_0000_0000_0000

  /** `parse::<usize>` of a run of digits: it fails on overflow only. */
  function ParseUsize(digits: string): Option<nat> {
    if Number(digits) < USIZE_LIMIT then Some(Number(digits)) else None
  }

  // ---------------------------------------------------------------- the specification

  datatype Token = Plain(c: char) | Slot(digits: string)

  /** The length of the slot s starts with - a brace, digits and a closing brace - or 0. */
  function SlotLen(s: string): (len: nat)
    ensures len <= |s|
  {
    if s == "" || s[0] != '{' then 0
    else
      var n := DigitRun(s[1..]);
      if n > 0 && n + 1 < |s| && s[n + 1] == '}' then n + 2 else 0
  }

  function Tokens(s: string): seq<Token> {
    if s == "" then []
    else if SlotLen(s) > 1 then [Slot(s[1..SlotLen(s) - 1])] + Tokens(s[SlotLen(s)..])
    else [Plain(s[0])] + Tokens(s[1..])
  }

  function Shown(t: Token): string {
    match t
    case Plain(c) => [c]
    case Slot(digits) => "{" + digits + "}"
  }

  /** What one token becomes: its argument, word for word, or itself when there is no such argument. */
  function Rendered(t: Token, args: seq<string>): string {
    if t.Slot? && ParseUsize(t.digits).Some? && ParseUsize(t.digits).value < |args|
    then args[ParseUsize(t.digits).value]
    else Shown(t)
  }

  function Render(ts: seq<Token>, args: seq<string>): string {
    if ts == [] then "" else Rendered(ts[0], args) + Render(ts[1..], args)
  }

  function Format(template: string, args: seq<string>): string {
    Render(Tokens(template), args)
  }

  // ---------------------------------------------------------------- the loop

  /** `find('{')`. */
  function FindBrace(s: string): (r: Option<nat>)
    ensures r.Some? ==> r.value < |s| && s[r.value] == '{' && '{' !in s[..r.value]
    ensures r.None? ==> '{' !in s
  {
    if s == "" then None
    else if s[0] == '{' then Some(0)
    else
      var r := FindBrace(s[1..]);
      if r.None? then None else Some(r.value + 1)
  }

  lemma {:induction false} PlainPrefix(s: string, k: nat, args: seq<string>)
    requires k <= |s| && '{' !in s[..k]
    ensures Format(s, args) == s[..k] + Format(s[k..], args)
  {
    if k > 0 {
      assert s[0] == s[..k][0] && s[..k] == [s[0]] + s[1..][..k - 1];
      assert s[1..][..k - 1] == s[..k][1..];
      PlainPrefix(s[1..], k - 1, args);
      assert s[1..][k - 1..] == s[k..];
    }
  }

  lemma SlotStep(s: string, args: seq<string>)
    requires SlotLen(s) > 1
    ensures Format(s, args) == Rendered(Slot(s[1..SlotLen(s) - 1]), args) + Format(s[SlotLen(s)..], args)
  {
  }

  lemma PlainStep(s: string, args: seq<string>)
    requires s != "" && SlotLen(s) <= 1
    ensures Format(s, args) == [s[0]] + Format(s[1..], args)
  {
  }

  lemma Assoc(a: string, b: string, c: string)
    ensures a + b + c == a + (b + c)
  {
  }

  lemma TakePlain(out: string, s: string, k: nat, args: seq<string>)
    requires k <= |s| && '{' !in s[..k]
    ensures out + Format(s, args) == out + s[..k] + Format(s[k..], args)
  {
    PlainPrefix(s, k, args);
    Assoc(out, s[..k], Format(s[k..], args));
  }

  lemma TakeBrace(out: string, s: string, after: string, args: seq<string>)
    requires s == "{" + after && SlotLen(s) <= 1
    ensures out + Format(s, args) == out + "{" + Format(after, args)
  {
    assert s[1..] == after;
    PlainStep(s, args);
    Assoc(out, "{", Format(after, args));
  }

  lemma CutBrace(s: string, after: string, n: nat)
    requires s == "{" + after && n < |after|
    ensures s[1..] == after && s[1..n + 1] == after[..n] && s[n + 2..] == after[n + 1..]
  {
  }

  lemma TakeSlot(out: string, s: string, after: string, n: nat, args: seq<string>)
    requires s == "{" + after && n == DigitRun(after) && 0 < n < |after| && after[n] == '}'
    ensures out + Format(s, args) == out + Rendered(Slot(after[..n]), args) + Format(after[n + 1..], args)
  {
    CutBrace(s, after, n);
    assert SlotLen(s) == n + 2;
    SlotStep(s, args);
    Assoc(out, Rendered(Slot(after[..n]), args), Format(after[n + 1..], args));
  }

  lemma SlotKept(after: string, n: nat)
    requires n < |after| && after[n] == '}'
    ensures Shown(Slot(after[..n])) == "{" + after[..n + 1]
  {
  }

  /** `tr_fmt_impl`. */
  method TrFmt(template: string, args: seq<string>) returns (out: string)
    ensures out == Format(template, args)
  {
    ghost var whole := Format(template, args);
    out := "";
    var rest := template;
    while true
      invariant out + Format(rest, args) == whole
      decreases |rest|
    {
      var start := FindBrace(rest);
      if start.None? {
        assert rest[..|rest|] == rest;
        TakePlain(out, rest, |rest|, args);
        out := out + rest;
        break;
      }
      TakePlain(out, rest, start.value, args);
      out := out + rest[..start.value];
      var after := rest[start.value + 1..];
      assert rest[start.value..] == "{" + after;
      var digitsEnd := DigitRun(after);
      if digitsEnd == 0 || digitsEnd >= |after| || after[digitsEnd] != '}' {
        assert ("{" + after)[1..] == after;
        TakeBrace(out, "{" + after, after, args);
        out := out + "{";
        rest := after;
        continue;
      }
      var tokenLen := digitsEnd + 1;
      TakeSlot(out, "{" + after, after, digitsEnd, args);
      var i := ParseUsize(after[..digitsEnd]);
      if i.Some? && i.value < |args| {
        out := out + args[i.value];
      } else {
        SlotKept(after, digitsEnd);
        Assoc(out, "{", after[..tokenLen]);
        out := out + "{";
        out := out + after[..tokenLen];
      }
      rest := after[tokenLen..];
    }
  }

  // ---------------------------------------------------------------- what the tokens are

  function ShownAll(ts: seq<Token>): string {
    if ts == [] then "" else Shown(ts[0]) + ShownAll(ts[1..])
  }

  lemma SlotShape(s: string)
    requires SlotLen(s) > 1
    ensures s[..SlotLen(s)] == Shown(Slot(s[1..SlotLen(s) - 1]))
  {
    var len := SlotLen(s);
    assert s[..len] == [s[0]] + s[1..len - 1] + [s[len - 1]];
  }

  lemma ShownStep(t: Token, ts: seq<Token>)
    ensures ShownAll([t] + ts) == Shown(t) + ShownAll(ts)
  {
  }

  /** Nothing of the template is lost in the tokens. */
  lemma {:induction false} TokensKeepTemplate(s: string)
    ensures ShownAll(Tokens(s)) == s
  {
    var len := SlotLen(s);
    if len > 1 {
      SlotShape(s);
      TokensKeepTemplate(s[len..]);
      ShownStep(Slot(s[1..len - 1]), Tokens(s[len..]));
      assert s == s[..len] + s[len..];
    } else if s != "" {
      TokensKeepTemplate(s[1..]);
      ShownStep(Plain(s[0]), Tokens(s[1..]));
      assert s == [s[0]] + s[1..];
    }
  }

  /** A slot token of the template starts at this position. */
  predicate SlotAt(ts: seq<Token>, pos: nat) {
    ts != [] && if pos == 0 then ts[0].Slot? else pos >= |Shown(ts[0])| && SlotAt(ts[1..], pos - |Shown(ts[0])|)
  }

  lemma {:induction false} DigitsInRun(s: string, k: nat)
    requires k < DigitRun(s)
    ensures IsDigit(s[k])
  {
    if k > 0 {
      DigitsInRun(s[1..], k - 1);
    }
  }

  lemma NoBraceInside(s: string, pos: nat)
    requires 0 < pos < SlotLen(s)
    ensures SlotLen(s[pos..]) == 0
  {
    assert s[pos..][0] == s[pos];
    if pos < SlotLen(s) - 1 {
      DigitsInRun(s[1..], pos - 1);
    }
  }

  lemma SlotAtStep(t: Token, ts: seq<Token>, pos: nat)
    ensures SlotAt([t] + ts, pos) <==>
            if pos == 0 then t.Slot? else pos >= |Shown(t)| && SlotAt(ts, pos - |Shown(t)|)
  {
  }

  /** The slots are exactly the places where a brace, digits and a closing brace stand. */
  lemma {:induction false} SlotsAreExactly(s: string, pos: nat)
    requires pos < |s|
    ensures SlotAt(Tokens(s), pos) <==> SlotLen(s[pos..]) > 1
    decreases |s|
  {
    var len := SlotLen(s);
    if pos == 0 {
      assert s[0..] == s;
    } else if len > 1 {
      SlotShape(s);
      SlotAtStep(Slot(s[1..len - 1]), Tokens(s[len..]), pos);
      if pos < len {
        NoBraceInside(s, pos);
      } else {
        SlotsAreExactly(s[len..], pos - len);
        assert s[len..][pos - len..] == s[pos..];
      }
    } else {
      SlotAtStep(Plain(s[0]), Tokens(s[1..]), pos);
      SlotsAreExactly(s[1..], pos - 1);
      assert s[1..][pos - 1..] == s[pos..];
    }
  }

  // ---------------------------------------------------------------- formatting is compositional

  lemma {:induction false} DigitRunStops(a: string, t: string)
    requires t != "" && !IsDigit(t[0])
    ensures DigitRun(a + t) == DigitRun(a)
  {
    if a == "" {
      assert a + t == t;
    } else {
      assert (a + t)[1..] == a[1..] + t;
      if IsDigit(a[0]) {
        DigitRunStops(a[1..], t);
      }
    }
  }

  lemma SlotLenWithin(a: string, t: string)
    requires a != "" && t != "" && t[0] == '{'
    ensures SlotLen(a + t) == SlotLen(a)
  {
    assert (a + t)[1..] == a[1..] + t;
    DigitRunStops(a[1..], t);
  }

  lemma CutBefore(a: string, t: string, len: nat)
    requires 1 < len <= |a|
    ensures (a + t)[1..len - 1] == a[1..len - 1] && (a + t)[len..] == a[len..] + t
  {
  }

  /** An opening brace always starts afresh: what stands before it cannot change what it means. */
  lemma {:induction false} BraceStartsAfresh(a: string, t: string)
    requires t != "" && t[0] == '{'
    ensures Tokens(a + t) == Tokens(a) + Tokens(t)
    decreases |a|
  {
    var len := SlotLen(a);
    if a == "" {
      assert a + t == t;
    } else if len > 1 {
      SlotLenWithin(a, t);
      CutBefore(a, t, len);
      BraceStartsAfresh(a[len..], t);
    } else {
      SlotLenWithin(a, t);
      assert (a + t)[1..] == a[1..] + t;
      BraceStartsAfresh(a[1..], t);
    }
  }

  lemma {:induction false} RenderAppend(a: seq<Token>, b: seq<Token>, args: seq<string>)
    ensures Render(a + b, args) == Render(a, args) + Render(b, args)
  {
    if a == [] {
      assert a + b == b;
    } else {
      assert (a + b)[1..] == a[1..] + b;
      RenderAppend(a[1..], b, args);
    }
  }

  lemma {:induction false} DigitRunOfDigits(digits: string, t: string)
    requires forall i :: 0 <= i < |digits| ==> IsDigit(digits[i])
    requires t != "" && !IsDigit(t[0])
    ensures DigitRun(digits + t) == |digits|
  {
    DigitRunStops(digits, t);
    AllDigits(digits);
  }

  lemma {:induction false} AllDigits(digits: string)
    requires forall i :: 0 <= i < |digits| ==> IsDigit(digits[i])
    ensures DigitRun(digits) == |digits|
  {
    if digits != "" {
      assert IsDigit(digits[0]);
      AllDigits(digits[1..]);
    }
  }

  /** Whatever stands around a slot, the slot becomes its argument and the rest what it is by itself. */
  lemma SlotInContext(a: string, digits: string, b: string, args: seq<string>)
    requires digits != "" && forall i :: 0 <= i < |digits| ==> IsDigit(digits[i])
    ensures Format(a + ("{" + digits + "}" + b), args)
            == Format(a, args) + (Rendered(Slot(digits), args) + Format(b, args))
  {
    var t := "{" + digits + "}" + b;
    var n := |digits|;
    assert t[1..] == digits + ("}" + b);
    DigitRunOfDigits(digits, "}" + b);
    assert t[n + 1] == '}' && t[1..n + 1] == digits && t[n + 2..] == b;
    BraceStartsAfresh(a, t);
    RenderAppend(Tokens(a), Tokens(t), args);
    SlotStep(t, args);
  }

  /** The usual decimal spelling of a number. */
  function Decimal(n: nat): string {
    if n < 10 then ['0' + n as char] else Decimal(n / 10) + ['0' + (n % 10) as char]
  }

  lemma {:induction false} NumberOfDecimal(n: nat)
    ensures Number(Decimal(n)) == n && Decimal(n) != ""
    ensures forall i :: 0 <= i < |Decimal(n)| ==> IsDigit(Decimal(n)[i])
  {
    if n >= 10 {
      NumberOfDecimal(n / 10);
      assert Decimal(n)[..|Decimal(n)| - 1] == Decimal(n / 10);
    } else {
      assert Decimal(n)[..0] == "";
    }
  }

  /** Argument n stands, unread and unchanged, where the template says {n}. */
  lemma ArgumentIsInserted(a: string, n: nat, b: string, args: seq<string>)
    requires n < |args| && n < 0x1_0000_0000_0000_0000
    ensures Format(a + ("{" + Decimal(n) + "}" + b), args) == Format(a, args) + (args[n] + Format(b, args))
  {
    NumberOfDecimal(n);
    SlotInContext(a, Decimal(n), b, args);
  }

  /** Without arguments every template stands for itself. */
  lemma {:induction false} NoArguments(s: string)
    ensures Format(s, []) == s
  {
    TokensKeepTemplate(s);
    RenderedAsShown(Tokens(s));
  }

  lemma {:induction false} RenderedAsShown(ts: seq<Token>)
    ensures Render(ts, []) == ShownAll(ts)
  {
    if ts != [] {
      RenderedAsShown(ts[1..]);
    }
  }

  // ---------------------------------------------------------------- slots, spelled out

  /** At `pos` stand an opening brace, n digits, at least one, and a closing brace. */
  predicate Braced(s: string, pos: nat, n: nat) {
    && n > 0 && pos + n + 1 < |s| && s[pos] == '{' && s[pos + n + 1] == '}'
    && forall i :: pos < i <= pos + n ==> '0' <= s[i] <= '9'
  }

  lemma {:induction false} RunIsAllDigits(s: string)
    ensures forall i :: 0 <= i < DigitRun(s) ==> '0' <= s[i] <= '9'
    ensures DigitRun(s) < |s| ==> !('0' <= s[DigitRun(s)] <= '9')
  {
    if s != "" && IsDigit(s[0]) {
      RunIsAllDigits(s[1..]);
      assert forall i :: 0 < i < DigitRun(s) ==> s[i] == s[1..][i - 1];
    }
  }

  lemma SlotIsBraced(s: string)
    ensures SlotLen(s) > 1 ==> Braced(s, 0, SlotLen(s) - 2)
    ensures forall n: nat :: Braced(s, 0, n) ==> SlotLen(s) == n + 2
  {
    if s != "" {
      var run := DigitRun(s[1..]);
      RunIsAllDigits(s[1..]);
      assert forall i :: 0 < i < |s| ==> s[i] == s[1..][i - 1];
      forall n: nat | Braced(s, 0, n) ensures SlotLen(s) == n + 2 {
        assert run >= n;
        assert run <= n;
      }
    }
  }

  /** A token is a slot exactly where a brace, one or more digits and a closing brace stand. */
  lemma SlotsAreBraced(s: string, pos: nat)
    requires pos < |s|
    ensures SlotAt(Tokens(s), pos) <==> exists n: nat :: Braced(s, pos, n)
  {
    SlotsAreExactly(s, pos);
    var t := s[pos..];
    SlotIsBraced(t);
    if SlotLen(t) > 1 {
      assert Braced(t, 0, SlotLen(t) - 2);
      assert Braced(s, pos, SlotLen(t) - 2);
    }
    if n: nat :| Braced(s, pos, n) {
      assert Braced(t, 0, n);
    }
  }

  /** A number without an argument, and one too large for a machine word, stays as it stands in the template. */
  lemma OutOfRangeStays(a: string, n: nat, b: string, args: seq<string>)
    requires n >= |args| || n >= 0x1_0000_0000_0000_0000
    ensures Format(a + ("{" + Decimal(n) + "}" + b), args) == Format(a, args) + ("{" + Decimal(n) + "}" + Format(b, args))
  {
    NumberOfDecimal(n);
    SlotInContext(a, Decimal(n), b, args);
  }
}
