/** Whitespace and trimming of strings, as the standard library of the source's language defines them. */
module Text {

  datatype Range = Range(first: char, last: char)

  predicate Within(c: char, ranges: seq<Range>) {
    ranges != [] && (ranges[0].first <= c <= ranges[0].last || Within(c, ranges[1..]))
  }

  /** The White_Space property. */
  const WHITE_SPACE: seq<Range> := [
    Range('\t', '\r'), Range(' ', ' '), Range('\U{85}', '\U{85}'), Range('\U{A0}', '\U{A0}'),
    Range('\U{1680}', '\U{1680}'), Range('\U{2000}', '\U{200A}'), Range('\U{2028}', '\U{2029}'),
    Range('\U{202F}', '\U{202F}'), Range('\U{205F}', '\U{205F}'), Range('\U{3000}', '\U{3000}')]

  /** `char::is_whitespace`. */
  predicate IsWhite(c: char) {
    Within(c, WHITE_SPACE)
  }

  lemma NewlineIsWhite()
    ensures IsWhite('\n')
  {
  }

  lemma AlnumIsNotWhite(c: char)
    requires '!' <= c <= '~'
    ensures !IsWhite(c)
  {
    BeyondAscii(c);
    assert WHITE_SPACE[1..][1..] == WHITE_SPACE[2..];
    assert !Within(c, WHITE_SPACE[1..]);
  }

  lemma {:induction false} NotWithin(c: char, ranges: seq<Range>)
    requires forall i :: 0 <= i < |ranges| ==> c < ranges[i].first
    ensures !Within(c, ranges)
  {
    if ranges != [] {
      NotWithin(c, ranges[1..]);
    }
  }

  lemma BeyondAscii(c: char)
    requires c < '\U{80}'
    ensures !Within(c, WHITE_SPACE[2..])
  {
    NotWithin(c, WHITE_SPACE[2..]);
  }

  /** The ASCII whitespace: tab to carriage return, and the blank. */
  lemma AsciiWhite(c: char)
    requires c < '\U{80}'
    ensures IsWhite(c) <==> c == ' ' || '\t' <= c <= '\r'
  {
    if '!' <= c <= '~' {
      AlnumIsNotWhite(c);
    } else {
      BeyondAscii(c);
      assert WHITE_SPACE[1..][1..] == WHITE_SPACE[2..];
      assert Within(c, WHITE_SPACE[1..]) <==> c == ' ';
    }
  }

  function TrimStart(s: string): (r: string)
    ensures |r| <= |s| && r == s[|s| - |r|..]
  {
    if s != "" && IsWhite(s[0]) then TrimStart(s[1..]) else s
  }

  function TrimEnd(s: string): (r: string)
    ensures |r| <= |s| && r == s[..|r|]
  {
    if s != "" && IsWhite(s[|s| - 1]) then TrimEnd(s[..|s| - 1]) else s
  }

  function Trim(s: string): string {
    TrimEnd(TrimStart(s))
  }

  /** The characters that are not whitespace, in order. */
  function Ink(s: string): string {
    if s == "" then ""
    else if IsWhite(s[0]) then Ink(s[1..])
    else [s[0]] + Ink(s[1..])
  }

  lemma {:induction false} InkAppend(s: string, t: string)
    ensures Ink(s + t) == Ink(s) + Ink(t)
  {
    if s == "" {
      assert s + t == t;
    } else {
      assert (s + t)[1..] == s[1..] + t;
      InkAppend(s[1..], t);
    }
  }

  lemma {:induction false} InkOfTrimStart(s: string)
    ensures Ink(TrimStart(s)) == Ink(s)
  {
    if s != "" && IsWhite(s[0]) {
      InkOfTrimStart(s[1..]);
    }
  }

  lemma {:induction false} InkOfTrimEnd(s: string)
    ensures Ink(TrimEnd(s)) == Ink(s)
  {
    if s != "" && IsWhite(s[|s| - 1]) {
      var init, last := s[..|s| - 1], s[|s| - 1..];
      InkOfTrimEnd(init);
      assert s == init + last;
      InkAppend(init, last);
    }
  }

  /** Trimming loses whitespace only. */
  lemma InkOfTrim(s: string)
    ensures Ink(Trim(s)) == Ink(s)
  {
    InkOfTrimStart(s);
    InkOfTrimEnd(TrimStart(s));
  }

  ghost predicate AllWhite(s: string) {
    forall i :: 0 <= i < |s| ==> IsWhite(s[i])
  }

  /** What is left of a text has no whitespace at either end, and nothing is left of whitespace only. */
  lemma TrimIsBlank(s: string)
    ensures Trim(s) == "" <==> AllWhite(s)
    ensures Trim(s) != "" ==> !IsWhite(Trim(s)[0]) && !IsWhite(Trim(s)[|Trim(s)| - 1])
  {
    var a := TrimStartBound(s);
    if a < |s| {
      TrimEndKeepsFirst(TrimStart(s));
      assert TrimStart(s)[0] == s[a];
    }
  }

  lemma {:induction false} TrimEndKeepsFirst(s: string)
    requires s != "" && !IsWhite(s[0])
    ensures TrimEnd(s) != "" && TrimEnd(s)[0] == s[0] && !IsWhite(TrimEnd(s)[|TrimEnd(s)| - 1])
  {
    if IsWhite(s[|s| - 1]) {
      TrimEndKeepsFirst(s[..|s| - 1]);
    }
  }

  lemma {:induction false} TrimStartBound(s: string) returns (a: nat)
    ensures a == |s| - |TrimStart(s)| && s[a..] == TrimStart(s)
    ensures forall i :: 0 <= i < a ==> IsWhite(s[i])
    ensures a < |s| ==> !IsWhite(s[a])
  {
    a := 0;
    if s != "" && IsWhite(s[0]) {
      var rest := TrimStartBound(s[1..]);
      a := rest + 1;
      forall i | 0 < i < a ensures IsWhite(s[i]) {
        assert s[1..][i - 1] == s[i];
      }
    }
  }
}
