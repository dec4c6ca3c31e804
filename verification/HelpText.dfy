/** Hard-wrapped help text (src/helptext.rs). Positions count characters where the source counts bytes. */
module HelpText {
  import opened Net
  import opened Text

  const HELP_LINE_WIDTH := 72

  // ---------------------------------------------------------------- columns

  /** East Asian wide and fullwidth characters, roughly. */
  const WIDE: seq<Range> := [
    Range('\U{1100}', '\U{115F}'), Range('\U{2329}', '\U{232A}'), Range('\U{2E80}', '\U{303E}'),
    Range('\U{3040}', '\U{A4CF}'), Range('\U{AC00}', '\U{D7A3}'), Range('\U{F900}', '\U{FAFF}'),
    Range('\U{FE10}', '\U{FE19}'), Range('\U{FE30}', '\U{FE6F}'), Range('\U{FF00}', '\U{FF60}'),
    Range('\U{FFE0}', '\U{FFE6}'), Range('\U{1F300}', '\U{1F64F}'), Range('\U{1F900}', '\U{1F9FF}'),
    Range('\U{20000}', '\U{2FFFD}'), Range('\U{30000}', '\U{3FFFD}')]

  function CharWidth(c: char): nat {
    if Within(c, WIDE) then 2 else 1
  }

  /** `display_width`. */
  function Width(s: string): nat {
    if s == "" then 0 else Width(s[..|s| - 1]) + CharWidth(s[|s| - 1])
  }

  lemma {:induction false} PrefixIsNarrower(s: string, k: nat)
    requires k <= |s|
    ensures Width(s[..k]) <= Width(s)
  {
    if k < |s| {
      PrefixIsNarrower(s[..|s| - 1], k);
      assert s[..|s| - 1][..k] == s[..k];
    } else {
      assert s[..k] == s;
    }
  }

  // ---------------------------------------------------------------- soft breaks

  predicate IsSoftBreak(c: char) {
    c == ',' || c == '\U{FF0C}' || c == ';' || c == '\U{FF1B}' || c == '/' || c == '\U{3001}' || c == ' ' || c == '\t'
  }

  /** Comma, semicolon, slash, blank and tab, and the wide comma, semicolon and enumeration comma. */
  lemma SoftBreakChars(c: char)
    ensures IsSoftBreak(c) <==> c in ",;/ \t\U{FF0C}\U{FF1B}\U{3001}"
  {
  }

  /** A soft break ends at b, and what comes before b fits. */
  predicate BreaksAt(s: string, width: nat, b: nat) {
    0 < b <= |s| && IsSoftBreak(s[b - 1]) && Width(s[..b]) <= width
  }

  /** The greatest element up to k, zero aside. */
  function LastIn(marks: set<nat>, k: nat): Option<nat> {
    if k == 0 then None else if k in marks then Some(k) else LastIn(marks, k - 1)
  }

  lemma {:induction false} LastInIsLast(marks: set<nat>, k: nat)
    ensures LastIn(marks, k).Some? ==> LastIn(marks, k).value in marks && 0 < LastIn(marks, k).value <= k
    ensures forall b :: b in marks && 0 < b <= k ==> LastIn(marks, k).Some? && b <= LastIn(marks, k).value
  {
    if k > 0 && k !in marks {
      LastInIsLast(marks, k - 1);
    }
  }

  lemma {:induction false} NoneBetween(marks: set<nat>, i: nat, k: nat)
    requires i <= k && forall b :: i < b <= k ==> b !in marks
    ensures LastIn(marks, k) == LastIn(marks, i)
  {
    if i < k {
      NoneBetween(marks, i, k - 1);
    }
  }

  function Breaks(s: string, width: nat): set<nat> {
    set b: nat | b <= |s| && BreaksAt(s, width, b)
  }

  /** The last usable soft break up to k. */
  function BestBreak(s: string, width: nat, k: nat): Option<nat> {
    LastIn(Breaks(s, width), k)
  }

  lemma BestBreakIsLast(s: string, width: nat)
    ensures var r := BestBreak(s, width, |s|);
            && (r.Some? ==> BreaksAt(s, width, r.value))
            && forall b :: 0 < b <= |s| && BreaksAt(s, width, b) ==> r.Some? && b <= r.value
  {
    LastInIsLast(Breaks(s, width), |s|);
    forall b | 0 < b <= |s| && BreaksAt(s, width, b) ensures b in Breaks(s, width) {
    }
  }

  lemma TooWideBeyond(s: string, width: nat, i: nat)
    requires i < |s| && Width(s[..i + 1]) > width
    ensures BestBreak(s, width, |s|) == BestBreak(s, width, i) && !BreaksAt(s, width, |s|)
  {
    forall b | i < b <= |s| ensures !BreaksAt(s, width, b) {
      PrefixIsNarrower(s[..b], i + 1);
      assert s[..b][..i + 1] == s[..i + 1];
    }
    NoneBetween(Breaks(s, width), i, |s|);
  }

  lemma WidthStep(s: string, i: nat)
    requires i < |s|
    ensures Width(s[..i + 1]) == Width(s[..i]) + CharWidth(s[i])
  {
    assert s[..i + 1][..i] == s[..i];
  }

  lemma BestBreakStep(s: string, width: nat, i: nat)
    requires i < |s| && Width(s[..i + 1]) <= width
    ensures BestBreak(s, width, i + 1) == if IsSoftBreak(s[i]) then Some(i + 1) else BestBreak(s, width, i)
  {
  }

  lemma DropFinalBreak(s: string, width: nat)
    ensures var r := BestBreak(s, width, |s|);
            (if r.Some? && r.value >= |s| then None else r) == if BreaksAt(s, width, |s|) then None else r
  {
    BestBreakIsLast(s, width);
  }

  /** `find_soft_break`: the last usable break, unless it is the end of the text. */
  method FindSoftBreak(s: string, width: nat) returns (r: Option<nat>)
    ensures r == if BreaksAt(s, width, |s|) then None else BestBreak(s, width, |s|)
  {
    var col, i := 0, 0;
    r := None;
    while i < |s|
      invariant i <= |s| && col == Width(s[..i]) <= width
      invariant r == BestBreak(s, width, i)
    {
      WidthStep(s, i);
      var w := CharWidth(s[i]);
      if col + w > width {
        TooWideBeyond(s, width, i);
        break;
      }
      BestBreakStep(s, width, i);
      col := col + w;
      i := i + 1;
      if IsSoftBreak(s[i - 1]) {
        r := Some(i);
      }
    }
    DropFinalBreak(s, width);
    if r.Some? && r.value >= |s| {
      r := None;
    }
  }

  // ---------------------------------------------------------------- one clause

  lemma Assoc<T>(a: seq<T>, b: seq<T>, c: seq<T>)
    ensures a + b + c == a + (b + c)
  {
  }

  /** A line of this text, if anything is left of it when its end is trimmed. */
  function Kept(text: string): seq<string> {
    if TrimEnd(text) == "" then [] else [TrimEnd(text)]
  }

  lemma KeptIsPushed(lines: seq<string>, text: string)
    ensures lines + Kept(text) == if TrimEnd(text) == "" then lines else lines + [TrimEnd(text)]
  {
  }

  /** The lines of a clause, none for an empty one. */
  function WrapRest(s: string, width: nat): seq<string>
    decreases |s|
  {
    if s == "" then []
    else if Width(s) <= width then [s]
    else
      var b := BestBreak(s, width, |s|);
      if b.None? || b.value == 0 || b.value > |s| then [s]
      else Kept(s[..b.value]) + WrapRest(TrimStart(s[b.value..]), width)
  }

  function Wrap(s: string, width: nat): seq<string> {
    if Width(s) <= width then [s] else WrapRest(s, width)
  }

  /** A clause too wide for one line: its first line ends at the last usable break, if there is one. */
  lemma WrapStep(s: string, width: nat)
    requires Width(s) > width
    ensures s != "" && !BreaksAt(s, width, |s|)
    ensures match BestBreak(s, width, |s|)
            case None => WrapRest(s, width) == [s]
            case Some(b) => 0 < b < |s| && WrapRest(s, width) == Kept(s[..b]) + WrapRest(TrimStart(s[b..]), width)
  {
    assert s[..|s|] == s;
    BestBreakIsLast(s, width);
  }

  method WrapClause(sentence: string, width: nat) returns (lines: seq<string>)
    ensures lines == Wrap(sentence, width)
  {
    if Width(sentence) <= width {
      return [sentence];
    }
    ghost var whole := WrapRest(sentence, width);
    lines := [];
    var rest := sentence;
    while Width(rest) > width
      invariant rest != "" && lines + WrapRest(rest, width) == whole
      decreases |rest|
    {
      WrapStep(rest, width);
      var breakAt := FindSoftBreak(rest, width);
      if breakAt.None? {
        break;
      }
      var head, tail := TrimEnd(rest[..breakAt.value]), TrimStart(rest[breakAt.value..]);
      Assoc(lines, Kept(rest[..breakAt.value]), WrapRest(tail, width));
      KeptIsPushed(lines, rest[..breakAt.value]);
      if head != "" {
        lines := lines + [head];
      }
      rest := tail;
      if rest == "" {
        return;
      }
    }
    if rest != "" {
      lines := lines + [rest];
    }
  }

  function InkAll(lines: seq<string>): string {
    if lines == [] then "" else InkAll(lines[..|lines| - 1]) + Ink(lines[|lines| - 1])
  }

  lemma {:induction false} InkAllAppend(a: seq<string>, b: seq<string>)
    ensures InkAll(a + b) == InkAll(a) + InkAll(b)
  {
    if b == [] {
      assert a + b == a;
    } else {
      assert (a + b)[..|a + b| - 1] == a + b[..|b| - 1];
      InkAllAppend(a, b[..|b| - 1]);
    }
  }

  lemma InkOfOne(line: string)
    ensures InkAll([line]) == Ink(line)
  {
    assert [line][..0] == [];
  }

  /** A line within the width, or one with no usable soft break in its first columns. */
  ghost predicate Fits(line: string, width: nat) {
    Width(line) <= width || forall b :: 0 < b <= |line| ==> !BreaksAt(line, width, b)
  }

  predicate OneLine(s: string) {
    '\n' !in s
  }

  lemma InkCut(s: string, a: nat, b: nat)
    requires a <= b <= |s|
    ensures Ink(s[a..]) == Ink(s[a..b]) + Ink(s[b..])
  {
    assert s[a..] == s[a..b] + s[b..];
    InkAppend(s[a..b], s[b..]);
  }

  lemma KeptIsSound(s: string, width: nat, b: nat)
    requires BreaksAt(s, width, b)
    ensures InkAll(Kept(s[..b])) == Ink(s[..b])
    ensures forall l :: l in Kept(s[..b]) ==> Width(l) <= width && (OneLine(s) ==> OneLine(l))
  {
    InkOfTrimEnd(s[..b]);
    InkOfOne(TrimEnd(s[..b]));
    PrefixIsNarrower(s[..b], |TrimEnd(s[..b])|);
  }

  /** Wrapping keeps a clause's characters. */
  lemma {:induction false} WrapKeepsInk(s: string, width: nat)
    ensures InkAll(WrapRest(s, width)) == Ink(s)
    decreases |s|
  {
    if Width(s) <= width {
      InkOfOne(s);
    } else {
      WrapStep(s, width);
      match BestBreak(s, width, |s|)
      case None => InkOfOne(s);
      case Some(b) =>
        BestBreakIsLast(s, width);
        var tail := TrimStart(s[b..]);
        WrapKeepsInk(tail, width);
        KeptIsSound(s, width, b);
        InkAllAppend(Kept(s[..b]), WrapRest(tail, width));
        InkOfTrimStart(s[b..]);
        InkCut(s, 0, b);
        assert s[0..] == s && s[0..b] == s[..b];
    }
  }

  /** Every line but a clause's last fits the width, and the last does unless it has no usable break. */
  lemma {:induction false} WrapFits(s: string, width: nat)
    ensures forall i :: 0 <= i < |WrapRest(s, width)| ==> Fits(WrapRest(s, width)[i], width)
    ensures forall i :: 0 <= i < |WrapRest(s, width)| - 1 ==> Width(WrapRest(s, width)[i]) <= width
    ensures OneLine(s) ==> forall l :: l in WrapRest(s, width) ==> OneLine(l)
    decreases |s|
  {
    if Width(s) > width {
      WrapStep(s, width);
      match BestBreak(s, width, |s|)
      case None =>
        BestBreakIsLast(s, width);
      case Some(b) =>
        BestBreakIsLast(s, width);
        WrapFits(TrimStart(s[b..]), width);
        KeptIsSound(s, width, b);
        KeptThenRest(Kept(s[..b]), WrapRest(TrimStart(s[b..]), width), width, OneLine(s));
    }
  }

  lemma KeptThenRest(kept: seq<string>, rest: seq<string>, width: nat, oneLine: bool)
    requires |kept| <= 1 && forall l :: l in kept ==> Width(l) <= width && (oneLine ==> OneLine(l))
    requires forall i :: 0 <= i < |rest| ==> Fits(rest[i], width)
    requires forall i :: 0 <= i < |rest| - 1 ==> Width(rest[i]) <= width
    requires oneLine ==> forall l :: l in rest ==> OneLine(l)
    ensures forall i :: 0 <= i < |kept + rest| ==> Fits((kept + rest)[i], width)
    ensures forall i :: 0 <= i < |kept + rest| - 1 ==> Width((kept + rest)[i]) <= width
    ensures oneLine ==> forall l :: l in kept + rest ==> OneLine(l)
  {
  }

  // ---------------------------------------------------------------- sentences

  predicate IsDigit(c: char) { '0' <= c <= '9' }

  predicate IsLower(c: char) { 'a' <= c <= 'z' }

  predicate IsWideStop(c: char) { c == '\U{3002}' || c == '\U{FF01}' || c == '\U{FF1F}' }

  /**
   * A sentence ends with character i: a wide stop always ends one; an ASCII stop does before
   * whitespace or the end, unless it is a dot between lower-case words.
   */
  predicate EndsAt(s: string, i: nat)
    requires i < |s|
  {
    var rest := s[i + 1..];
    IsWideStop(s[i])
    || ((s[i] == '.' || s[i] == '!' || s[i] == '?') && (rest == "" || IsWhite(rest[0])) && !InAbbreviation(s, i))
  }

  predicate InAbbreviation(s: string, i: nat)
    requires i < |s|
  {
    var next := TrimStart(s[i + 1..]);
    s[i] == '.' && i > 0 && IsLower(s[i - 1]) && next != "" && IsLower(next[0])
  }

  function Piece(s: string): seq<string> {
    if Trim(s) == "" then [] else [Trim(s)]
  }

  function Ends(s: string): set<nat> {
    set k: nat | k < |s| && EndsAt(s, k)
  }

  /** The pieces of s from `start` on, cut behind the given ends, none of which lies between `start` and i. */
  function Pieces(s: string, ends: set<nat>, start: nat, i: nat): seq<string>
    requires start <= i <= |s|
    decreases |s| - i
  {
    if i == |s| then Piece(s[start..])
    else if i in ends then Piece(s[start..i + 1]) + Pieces(s, ends, i + 1, i + 1)
    else Pieces(s, ends, start, i + 1)
  }

  function Sentences(s: string): seq<string> {
    Pieces(s, Ends(s), 0, 0)
  }

  /**
   * A wide stop ends a sentence; so does an ASCII stop at the end of the text or before whitespace, but not a dot
   * behind a lower-case letter when the next word begins with one.
   */
  ghost predicate Stops(s: string, i: nat)
    requires i < |s|
  {
    || s[i] in "\U{3002}\U{FF01}\U{FF1F}"
    || (s[i] in ".!?" && (i + 1 == |s| || IsWhite(s[i + 1])) && !(s[i] == '.' && BetweenLowers(s, i)))
  }

  ghost predicate BetweenLowers(s: string, i: nat)
    requires i < |s|
  {
    && i > 0 && 'a' <= s[i - 1] <= 'z'
    && exists j :: i < j < |s| && 'a' <= s[j] <= 'z' && forall k :: i < k < j ==> IsWhite(s[k])
  }

  lemma LowerIsNotWhite(c: char)
    requires 'a' <= c <= 'z'
    ensures !IsWhite(c)
  {
    AlnumIsNotWhite(c);
  }

  lemma NextWordBegins(s: string, i: nat)
    requires i < |s|
    ensures var next := TrimStart(s[i + 1..]);
            next != "" && IsLower(next[0])
            <==> exists j :: i < j < |s| && 'a' <= s[j] <= 'z' && forall k :: i < k < j ==> IsWhite(s[k])
  {
    var rest := s[i + 1..];
    var skipped := TrimStartBound(rest);
    var at := i + 1 + skipped;
    forall k | i < k < at ensures IsWhite(s[k]) {
      assert rest[k - i - 1] == s[k];
    }
    if at < |s| {
      assert rest[skipped] == s[at];
    }
    if j :| i < j < |s| && 'a' <= s[j] <= 'z' && forall k :: i < k < j ==> IsWhite(s[k]) {
      LowerIsNotWhite(s[j]);
      assert at == j;
    }
  }

  lemma StopChars(c: char)
    ensures IsWideStop(c) <==> c in "\U{3002}\U{FF01}\U{FF1F}"
    ensures c == '.' || c == '!' || c == '?' <==> c in ".!?"
  {
  }

  lemma AbbreviationIs(s: string, i: nat)
    requires i < |s|
    ensures InAbbreviation(s, i) <==> s[i] == '.' && BetweenLowers(s, i)
  {
    NextWordBegins(s, i);
  }

  /** The sentence ends are exactly these places. */
  lemma EndsAreStops(s: string, i: nat)
    requires i < |s|
    ensures i in Ends(s) <==> Stops(s, i)
  {
    assert i in Ends(s) <==> EndsAt(s, i);
    StopChars(s[i]);
    AbbreviationIs(s, i);
    BehindIs(s, i);
  }

  lemma BehindIs(s: string, i: nat)
    requires i < |s|
    ensures s[i + 1..] == "" <==> i + 1 == |s|
    ensures i + 1 < |s| ==> s[i + 1..][0] == s[i + 1]
  {
  }

  /** The branches of `split_sentences` on one character. */
  method EndsHere(s: string, i: nat) returns (ends: bool)
    requires i < |s|
    ensures ends == (i in Ends(s))
  {
    var ch := s[i];
    assert i in Ends(s) <==> EndsAt(s, i);
    if IsWideStop(ch) {
      return true;
    }
    if ch == '.' || ch == '!' || ch == '?' {
      var rest := s[i + 1..];
      if ch == '.' && rest != "" && IsDigit(rest[0]) {
        DigitIsNotWhite(rest[0]);
        return false;
      }
      if ch == '.' {
        var nextWord := TrimStart(rest);
        if i > 0 && IsLower(s[i - 1]) && nextWord != "" && IsLower(nextWord[0]) {
          return false;
        }
      }
      return rest == "" || IsWhite(rest[0]);
    }
    ends := false;
  }

  lemma DigitIsNotWhite(c: char)
    requires IsDigit(c)
    ensures !IsWhite(c)
  {
    AlnumIsNotWhite(c);
  }

  /** `split_sentences`. */
  method SplitSentences(s: string) returns (out: seq<string>)
    ensures out == Sentences(s)
  {
    out := [];
    var start, i := 0, 0;
    ghost var all, whole := Ends(s), Sentences(s);
    while i < |s|
      invariant start <= i <= |s| && out + Pieces(s, all, start, i) == whole
    {
      var ends := EndsHere(s, i);
      TakePiece(out, s, all, start, i);
      if ends {
        var piece := Trim(s[start..i + 1]);
        if piece != "" {
          out := out + [piece];
        }
        start := i + 1;
      }
      i := i + 1;
    }
    TakeLast(out, s, all, start);
    var tail := Trim(s[start..]);
    if tail != "" {
      out := out + [tail];
    }
  }

  function Push(out: seq<string>, text: string): seq<string> {
    if Trim(text) == "" then out else out + [Trim(text)]
  }

  lemma PieceIsPushed(out: seq<string>, text: string)
    ensures out + Piece(text) == Push(out, text)
  {
  }

  lemma TakePiece(out: seq<string>, s: string, ends: set<nat>, start: nat, i: nat)
    requires start <= i < |s|
    ensures out + Pieces(s, ends, start, i) ==
            if i in ends then Push(out, s[start..i + 1]) + Pieces(s, ends, i + 1, i + 1)
            else out + Pieces(s, ends, start, i + 1)
  {
    if i in ends {
      Assoc(out, Piece(s[start..i + 1]), Pieces(s, ends, i + 1, i + 1));
      PieceIsPushed(out, s[start..i + 1]);
    }
  }

  lemma TakeLast(out: seq<string>, s: string, ends: set<nat>, start: nat)
    requires start <= |s|
    ensures out + Pieces(s, ends, start, |s|) == Push(out, s[start..])
  {
    PieceIsPushed(out, s[start..]);
  }

  lemma PieceKeepsInk(s: string)
    ensures InkAll(Piece(s)) == Ink(s)
  {
    InkOfTrim(s);
    InkOfOne(Trim(s));
  }

  /** Cutting into pieces keeps the characters. */
  lemma {:induction false} PiecesKeepInk(s: string, ends: set<nat>, start: nat, i: nat)
    requires start <= i <= |s|
    ensures InkAll(Pieces(s, ends, start, i)) == Ink(s[start..])
    decreases |s| - i
  {
    if i == |s| {
      PieceKeepsInk(s[start..]);
    } else if i in ends {
      PieceKeepsInk(s[start..i + 1]);
      PiecesKeepInk(s, ends, i + 1, i + 1);
      InkAllAppend(Piece(s[start..i + 1]), Pieces(s, ends, i + 1, i + 1));
      InkCut(s, start, i + 1);
    } else {
      PiecesKeepInk(s, ends, start, i + 1);
    }
  }

  /** A stretch of the text, trimmed, that begins behind one of the ends and holds none before its own. */
  ghost predicate Stretch(s: string, ends: set<nat>, p: string) {
    exists a, b | 0 <= a <= b <= |s| :: p == Trim(s[a..b]) && Between(s, ends, a, b)
  }

  ghost predicate Between(s: string, ends: set<nat>, a: nat, b: nat)
    requires a <= b <= |s|
  {
    && (a == 0 || a - 1 in ends)
    && (b == |s| || (a < b && b - 1 in ends))
    && forall k :: a <= k < b - 1 ==> k !in ends
  }

  lemma PieceIsStretch(s: string, ends: set<nat>, a: nat, b: nat, p: string)
    requires a <= b <= |s| && Between(s, ends, a, b) && p in Piece(s[a..b])
    ensures Stretch(s, ends, p)
  {
  }

  lemma {:induction false} PiecesAreStretches(s: string, ends: set<nat>, start: nat, i: nat, p: string)
    requires start <= i <= |s| && (start == 0 || start - 1 in ends)
    requires forall k :: start <= k < i ==> k !in ends
    requires p in Pieces(s, ends, start, i)
    ensures Stretch(s, ends, p)
    decreases |s| - i
  {
    if i == |s| {
      assert s[start..|s|] == s[start..];
      PieceIsStretch(s, ends, start, |s|, p);
    } else if i !in ends {
      PiecesAreStretches(s, ends, start, i + 1, p);
    } else if p in Pieces(s, ends, i + 1, i + 1) {
      PiecesAreStretches(s, ends, i + 1, i + 1, p);
    } else {
      PieceIsStretch(s, ends, start, i + 1, p);
    }
  }

  /** The splitter breaks at every sentence end and nowhere else. */
  lemma SentencesAreWhole(s: string)
    ensures forall p :: p in Sentences(s) ==> Stretch(s, Ends(s), p)
  {
    forall p | p in Sentences(s) ensures Stretch(s, Ends(s), p) {
      PiecesAreStretches(s, Ends(s), 0, 0, p);
    }
  }

  lemma TrimIsOneLine(s: string)
    requires OneLine(s)
    ensures OneLine(Trim(s))
  {
  }

  lemma StretchIsOneLine(s: string, ends: set<nat>, p: string)
    requires OneLine(s) && Stretch(s, ends, p)
    ensures OneLine(p)
  {
    var a, b :| 0 <= a <= b <= |s| && p == Trim(s[a..b]) && Between(s, ends, a, b);
    TrimIsOneLine(s[a..b]);
  }

  /** Sentences keep the characters and hold no newline of their own. */
  lemma SentencesKeepInk(s: string)
    ensures InkAll(Sentences(s)) == Ink(s)
    ensures OneLine(s) ==> forall p :: p in Sentences(s) ==> OneLine(p)
  {
    PiecesKeepInk(s, Ends(s), 0, 0);
    assert s[0..] == s;
    SentencesAreWhole(s);
    forall p | OneLine(s) && p in Sentences(s) ensures OneLine(p) {
      StretchIsOneLine(s, Ends(s), p);
    }
  }

  // ---------------------------------------------------------------- the whole text

  /** `split('\n')`. */
  function Split(s: string): (r: seq<string>)
    ensures r != []
  {
    if s == "" then [""]
    else if s[|s| - 1] == '\n' then Split(s[..|s| - 1]) + [""]
    else
      var init := Split(s[..|s| - 1]);
      init[..|init| - 1] + [init[|init| - 1] + [s[|s| - 1]]]
  }

  function Join(lines: seq<string>): string {
    if lines == [] then ""
    else if |lines| == 1 then lines[0]
    else Join(lines[..|lines| - 1]) + "\n" + lines[|lines| - 1]
  }

  function WrapAll(sentences: seq<string>): seq<string> {
    if sentences == [] then []
    else WrapAll(sentences[..|sentences| - 1]) + Wrap(sentences[|sentences| - 1], HELP_LINE_WIDTH)
  }

  function ParagraphLines(paragraph: string): seq<string> {
    if Trim(paragraph) == "" then [""] else WrapAll(Sentences(Trim(paragraph)))
  }

  function AllLines(paragraphs: seq<string>): seq<string> {
    if paragraphs == [] then []
    else AllLines(paragraphs[..|paragraphs| - 1]) + ParagraphLines(paragraphs[|paragraphs| - 1])
  }

  function DropBlanks(lines: seq<string>): seq<string> {
    if lines != [] && lines[|lines| - 1] == "" then DropBlanks(lines[..|lines| - 1]) else lines
  }

  function FinalLines(full: string): seq<string> {
    DropBlanks(AllLines(Split(Trim(full))))
  }

  function Wrapped(full: string): string {
    if Trim(full) == "" then "" else Join(FinalLines(full))
  }

  lemma WrapAllStep(sentences: seq<string>, j: nat)
    requires j < |sentences|
    ensures WrapAll(sentences[..j + 1]) == WrapAll(sentences[..j]) + Wrap(sentences[j], HELP_LINE_WIDTH)
  {
    assert sentences[..j + 1][..j] == sentences[..j];
  }

  lemma AllLinesStep(paragraphs: seq<string>, i: nat)
    requires i < |paragraphs|
    ensures AllLines(paragraphs[..i + 1]) == AllLines(paragraphs[..i]) + ParagraphLines(paragraphs[i])
  {
    assert paragraphs[..i + 1][..i] == paragraphs[..i];
  }

  /** One paragraph's sentences, each wrapped, behind the lines already there. */
  method WrapParagraph(before: seq<string>, para: string) returns (out: seq<string>)
    ensures out == before + WrapAll(Sentences(para))
  {
    out := before;
    var sentences := SplitSentences(para);
    for j := 0 to |sentences|
      invariant out == before + WrapAll(sentences[..j])
    {
      WrapAllStep(sentences, j);
      var lines := WrapClause(sentences[j], HELP_LINE_WIDTH);
      Assoc(before, WrapAll(sentences[..j]), lines);
      out := out + lines;
    }
    assert sentences[..|sentences|] == sentences;
  }

  /** `hard_wrap_help`. */
  method HardWrapHelp(full: string) returns (text: string)
    ensures text == Wrapped(full)
  {
    var s := Trim(full);
    if s == "" {
      return "";
    }
    var out: seq<string> := [];
    var paragraphs := Split(s);
    for i := 0 to |paragraphs|
      invariant out == AllLines(paragraphs[..i])
    {
      AllLinesStep(paragraphs, i);
      var para := Trim(paragraphs[i]);
      if para == "" {
        out := out + [""];
        continue;
      }
      out := WrapParagraph(out, para);
    }
    assert paragraphs[..|paragraphs|] == paragraphs;
    while out != [] && out[|out| - 1] == ""
      invariant DropBlanks(out) == DropBlanks(AllLines(paragraphs))
    {
      out := out[..|out| - 1];
    }
    text := Join(out);
  }

  // ---------------------------------------------------------------- what wrapping keeps

  ghost predicate GoodLines(lines: seq<string>) {
    forall i :: 0 <= i < |lines| ==> OneLine(lines[i]) && Fits(lines[i], HELP_LINE_WIDTH)
  }

  lemma {:induction false} SplitIsOneLine(s: string)
    ensures forall l :: l in Split(s) ==> OneLine(l)
  {
    if s != "" {
      var lines := Split(s[..|s| - 1]);
      SplitIsOneLine(s[..|s| - 1]);
      assert lines[|lines| - 1] in lines;
    }
  }

  lemma InkSnoc(front: seq<string>, line: string)
    ensures InkAll(front + [line]) == InkAll(front) + Ink(line)
  {
    assert (front + [line])[..|front|] == front;
  }

  lemma LastLineGrows(front: seq<string>, tail: string, more: string)
    ensures InkAll(front + [tail + more]) == InkAll(front + [tail]) + Ink(more)
  {
    InkSnoc(front, tail);
    InkSnoc(front, tail + more);
    InkAppend(tail, more);
    Assoc(InkAll(front), Ink(tail), Ink(more));
  }

  lemma InkOfNewline()
    ensures Ink("\n") == ""
  {
    NewlineIsWhite();
  }

  lemma {:induction false} InkOfSplit(s: string)
    ensures InkAll(Split(s)) == Ink(s)
  {
    if s == "" {
      InkOfOne("");
    } else {
      var init, last := s[..|s| - 1], [s[|s| - 1]];
      var lines := Split(init);
      InkOfSplit(init);
      assert s == init + last;
      InkAppend(init, last);
      if last == "\n" {
        InkOfNewline();
        InkAllAppend(lines, [""]);
        InkOfOne("");
      } else {
        var front, tail := lines[..|lines| - 1], lines[|lines| - 1];
        assert lines == front + [tail];
        LastLineGrows(front, tail, last);
      }
    }
  }

  lemma InkOfJoined(a: string, b: string)
    ensures Ink(a + "\n" + b) == Ink(a) + Ink(b)
  {
    InkAppend(a + "\n", b);
    InkAppend(a, "\n");
    InkOfNewline();
  }

  lemma {:induction false} InkOfJoin(lines: seq<string>)
    ensures Ink(Join(lines)) == InkAll(lines)
  {
    if |lines| == 1 {
      assert lines == [lines[0]];
      InkOfOne(lines[0]);
    } else if lines != [] {
      InkOfJoin(lines[..|lines| - 1]);
      InkOfJoined(Join(lines[..|lines| - 1]), lines[|lines| - 1]);
    }
  }

  lemma {:induction false} InkOfDropBlanks(lines: seq<string>)
    requires GoodLines(lines)
    ensures InkAll(DropBlanks(lines)) == InkAll(lines) && GoodLines(DropBlanks(lines))
  {
    if lines != [] && lines[|lines| - 1] == "" {
      InkOfDropBlanks(lines[..|lines| - 1]);
    }
  }

  lemma {:induction false} WrapAllIsSound(sentences: seq<string>)
    requires forall p :: p in sentences ==> OneLine(p)
    ensures InkAll(WrapAll(sentences)) == InkAll(sentences) && GoodLines(WrapAll(sentences))
  {
    if sentences != [] {
      var init, last := sentences[..|sentences| - 1], sentences[|sentences| - 1];
      WrapAllIsSound(init);
      WrapKeepsInk(last, HELP_LINE_WIDTH);
      WrapFits(last, HELP_LINE_WIDTH);
      InkOfOne(last);
      InkAllAppend(WrapAll(init), Wrap(last, HELP_LINE_WIDTH));
    }
  }

  lemma ParagraphIsSound(paragraph: string)
    requires OneLine(paragraph)
    ensures InkAll(ParagraphLines(paragraph)) == Ink(paragraph) && GoodLines(ParagraphLines(paragraph))
  {
    var p := Trim(paragraph);
    InkOfTrim(paragraph);
    if p == "" {
      InkOfOne("");
    } else {
      SentencesKeepInk(p);
      WrapAllIsSound(Sentences(p));
    }
  }

  lemma {:induction false} AllLinesAreSound(paragraphs: seq<string>)
    requires forall p :: p in paragraphs ==> OneLine(p)
    ensures InkAll(AllLines(paragraphs)) == InkAll(paragraphs) && GoodLines(AllLines(paragraphs))
  {
    if paragraphs != [] {
      var init, last := paragraphs[..|paragraphs| - 1], paragraphs[|paragraphs| - 1];
      AllLinesAreSound(init);
      ParagraphIsSound(last);
      InkAllAppend(AllLines(init), ParagraphLines(last));
    }
  }

  lemma WrappedLines(full: string)
    requires Trim(full) != ""
    ensures InkAll(FinalLines(full)) == Ink(full) && GoodLines(FinalLines(full))
  {
    InkOfTrim(full);
    InkOfSplit(Trim(full));
    SplitIsOneLine(Trim(full));
    AllLinesAreSound(Split(Trim(full)));
    InkOfDropBlanks(AllLines(Split(Trim(full))));
  }

  /** The wrapped text has the same characters in the same order, whitespace aside. */
  lemma WrappingKeepsText(full: string)
    ensures Ink(Wrapped(full)) == Ink(full)
  {
    InkOfTrim(full);
    if Trim(full) != "" {
      WrappedLines(full);
      InkOfJoin(FinalLines(full));
    }
  }

  /** A character at the end of the last line. */
  function Grow(lines: seq<string>, c: char): seq<string>
    requires lines != []
  {
    lines[..|lines| - 1] + [lines[|lines| - 1] + [c]]
  }

  lemma SplitStep(s: string, c: char)
    ensures Split(s + [c]) == if c == '\n' then Split(s) + [""] else Grow(Split(s), c)
  {
    assert (s + [c])[..|s|] == s;
  }

  lemma {:induction false} SplitAtNewline(a: string, b: string)
    ensures Split(a + "\n" + b) == Split(a) + Split(b)
  {
    if b == "" {
      assert a + "\n" + b == a + ['\n'];
      SplitStep(a, '\n');
    } else {
      var init, c := b[..|b| - 1], b[|b| - 1];
      assert b == init + [c] && a + "\n" + b == (a + "\n" + init) + [c];
      SplitAtNewline(a, init);
      SplitStep(init, c);
      SplitStep(a + "\n" + init, c);
      GrowBehind(Split(a), Split(init), c);
      Assoc(Split(a), Split(init), [""]);
    }
  }

  lemma GrowBehind(a: seq<string>, b: seq<string>, c: char)
    requires b != []
    ensures Grow(a + b, c) == a + Grow(b, c)
  {
  }

  lemma {:induction false} AllLinesAppend(a: seq<string>, b: seq<string>)
    ensures AllLines(a + b) == AllLines(a) + AllLines(b)
  {
    if b == [] {
      assert a + b == a;
    } else {
      var k := |b| - 1;
      assert (a + b)[..|a + b| - 1] == a + b[..k];
      AllLinesAppend(a, b[..k]);
      Assoc(AllLines(a), AllLines(b[..k]), ParagraphLines(b[k]));
    }
  }

  /** A newline of the text stays a break: what stands before it and behind it is wrapped independently. */
  lemma ParagraphsAreIndependent(a: string, b: string)
    ensures AllLines(Split(a + "\n" + b)) == AllLines(Split(a)) + AllLines(Split(b))
  {
    SplitAtNewline(a, b);
    AllLinesAppend(Split(a), Split(b));
  }

  lemma {:induction false} SplitOneLine(line: string)
    requires OneLine(line)
    ensures Split(line) == [line]
  {
    if line != "" {
      SplitOneLine(line[..|line| - 1]);
      assert line == line[..|line| - 1] + [line[|line| - 1]];
    }
  }

  lemma JoinStep(lines: seq<string>, last: string)
    requires lines != []
    ensures Join(lines + [last]) == Join(lines) + "\n" + last
  {
    assert (lines + [last])[..|lines|] == lines;
  }

  lemma SplitOfMore(lines: seq<string>, last: string)
    requires lines != [] && Split(Join(lines)) == lines && OneLine(last)
    ensures Split(Join(lines + [last])) == lines + [last]
  {
    JoinStep(lines, last);
    SplitAtNewline(Join(lines), last);
    SplitOneLine(last);
  }

  lemma {:induction false} SplitOfJoin(lines: seq<string>)
    requires lines != [] && forall i :: 0 <= i < |lines| ==> OneLine(lines[i])
    ensures Split(Join(lines)) == lines
  {
    var k := |lines| - 1;
    if k == 0 {
      assert Join(lines) == lines[0];
      SplitOneLine(lines[0]);
    } else {
      SplitOfJoin(lines[..k]);
      SplitOfMore(lines[..k], lines[k]);
      assert lines == lines[..k] + [lines[k]];
    }
  }

  lemma SplitIsGood(lines: seq<string>)
    requires GoodLines(lines)
    ensures GoodLines(Split(Join(lines)))
  {
    if lines == [] {
      NothingIsGood();
    } else {
      SplitOfJoin(lines);
    }
  }

  lemma NothingIsGood()
    ensures GoodLines(Split(""))
  {
    assert Split("") == [""];
  }

  /** Every line of the wrapped text fits 72 columns, or has no soft break in its first 72. */
  lemma WrappedLinesFit(full: string)
    ensures GoodLines(Split(Wrapped(full)))
  {
    if Trim(full) == "" {
      NothingIsGood();
    } else {
      WrappedLines(full);
      SplitIsGood(FinalLines(full));
    }
  }

  // ---------------------------------------------------------------- the lines, paragraph by paragraph

  /** The lines of one sentence: itself when it fits, otherwise lines that hold its characters and fit. */
  ghost predicate HoldsSentence(lines: seq<string>, sentence: string) {
    && lines != [] && InkAll(lines) == Ink(sentence)
    && (Width(sentence) <= 72 ==> lines == [sentence])
    && forall l :: l in lines ==> l != "" && Fits(l, 72)
  }

  /** Every sentence begins a line of its own. */
  ghost predicate HoldsSentences(lines: seq<string>, sentences: seq<string>)
    decreases |sentences|
  {
    if sentences == [] then lines == []
    else exists k | 0 <= k <= |lines| ::
           HoldsSentences(lines[..k], sentences[..|sentences| - 1]) && HoldsSentence(lines[k..], sentences[|sentences| - 1])
  }

  /** A blank paragraph is one blank line, any other the lines of its sentences. */
  ghost predicate HoldsParagraph(lines: seq<string>, paragraph: string) {
    if Trim(paragraph) == "" then lines == [""]
    else lines != [] && "" !in lines && HoldsSentences(lines, Sentences(Trim(paragraph)))
  }

  ghost predicate HoldsParagraphs(lines: seq<string>, paragraphs: seq<string>)
    decreases |paragraphs|
  {
    if paragraphs == [] then lines == []
    else exists k | 0 <= k <= |lines| ::
           && HoldsParagraphs(lines[..k], paragraphs[..|paragraphs| - 1])
           && HoldsParagraph(lines[k..], paragraphs[|paragraphs| - 1])
  }

  lemma {:induction false} WrapHasNoBlank(s: string, width: nat)
    ensures "" !in WrapRest(s, width)
    decreases |s|
  {
    if s != "" && Width(s) > width {
      WrapStep(s, width);
      if BestBreak(s, width, |s|).Some? {
        WrapHasNoBlank(TrimStart(s[BestBreak(s, width, |s|).value..]), width);
      }
    }
  }

  lemma InkOfNonBlank(s: string)
    requires Trim(s) != ""
    ensures Ink(s) != ""
  {
    TrimIsBlank(s);
    InkOfTrim(s);
  }

  lemma SentenceIsHeld(s: string)
    requires Ink(s) != ""
    ensures HoldsSentence(Wrap(s, HELP_LINE_WIDTH), s)
  {
    InkOfOne(s);
    WrapKeepsInk(s, HELP_LINE_WIDTH);
    WrapFits(s, HELP_LINE_WIDTH);
    WrapHasNoBlank(s, HELP_LINE_WIDTH);
  }

  lemma OneMoreHeld(lines: seq<string>, more: seq<string>, sentences: seq<string>)
    requires sentences != [] && HoldsSentences(lines, sentences[..|sentences| - 1])
    requires HoldsSentence(more, sentences[|sentences| - 1])
    ensures HoldsSentences(lines + more, sentences)
  {
    var k := |lines|;
    assert (lines + more)[..k] == lines && (lines + more)[k..] == more;
  }

  lemma {:induction false} SentencesAreHeld(sentences: seq<string>)
    requires forall t :: t in sentences ==> HoldsSentence(Wrap(t, HELP_LINE_WIDTH), t)
    ensures HoldsSentences(WrapAll(sentences), sentences) && "" !in WrapAll(sentences)
    ensures sentences != [] ==> WrapAll(sentences) != []
  {
    if sentences != [] {
      var init, last := sentences[..|sentences| - 1], sentences[|sentences| - 1];
      assert last in sentences && forall t :: t in init ==> t in sentences;
      SentencesAreHeld(init);
      OneMoreHeld(WrapAll(init), Wrap(last, HELP_LINE_WIDTH), sentences);
    }
  }

  lemma PieceHasInk(text: string)
    ensures forall t :: t in Piece(text) ==> Ink(t) != ""
  {
    if Trim(text) != "" {
      InkOfNonBlank(text);
      InkOfTrim(text);
    }
  }

  lemma {:induction false} PiecesHaveInk(s: string, ends: set<nat>, start: nat, i: nat)
    requires start <= i <= |s|
    ensures forall t :: t in Pieces(s, ends, start, i) ==> Ink(t) != ""
    decreases |s| - i
  {
    if i == |s| {
      PieceHasInk(s[start..]);
    } else if i in ends {
      PieceHasInk(s[start..i + 1]);
      PiecesHaveInk(s, ends, i + 1, i + 1);
    } else {
      PiecesHaveInk(s, ends, start, i + 1);
    }
  }

  lemma ParagraphIsHeld(paragraph: string)
    ensures HoldsParagraph(ParagraphLines(paragraph), paragraph)
  {
    var p := Trim(paragraph);
    if p != "" {
      PiecesHaveInk(p, Ends(p), 0, 0);
      forall t | t in Sentences(p) ensures HoldsSentence(Wrap(t, HELP_LINE_WIDTH), t) {
        SentenceIsHeld(t);
      }
      SentencesAreHeld(Sentences(p));
      PiecesKeepInk(p, Ends(p), 0, 0);
      assert p[0..] == p;
      InkOfNonBlank(paragraph);
      InkOfTrim(paragraph);
    }
  }

  lemma {:induction false} ParagraphsAreHeld(paragraphs: seq<string>)
    ensures HoldsParagraphs(AllLines(paragraphs), paragraphs)
  {
    if paragraphs != [] {
      var init, last := paragraphs[..|paragraphs| - 1], paragraphs[|paragraphs| - 1];
      ParagraphsAreHeld(init);
      ParagraphIsHeld(last);
      var a, b := AllLines(init), ParagraphLines(last);
      assert (a + b)[..|a|] == a && (a + b)[|a|..] == b;
    }
  }

  /** The last paragraph of a trimmed text is not blank. */
  lemma LastIsNotBlank(s: string)
    requires s != "" && !IsWhite(s[|s| - 1])
    ensures Trim(Split(s)[|Split(s)| - 1]) != ""
  {
    NewlineIsWhite();
    var last := Split(s)[|Split(s)| - 1];
    assert last[|last| - 1] == s[|s| - 1];
    TrimIsBlank(last);
  }

  lemma LastLineIsNotBlank(paragraphs: seq<string>)
    requires paragraphs != [] && Trim(paragraphs[|paragraphs| - 1]) != ""
    ensures var lines := AllLines(paragraphs); lines != [] && lines[|lines| - 1] != ""
  {
    var lines := ParagraphLines(paragraphs[|paragraphs| - 1]);
    ParagraphIsHeld(paragraphs[|paragraphs| - 1]);
    assert lines[|lines| - 1] in lines;
  }

  lemma NothingIsDropped(full: string)
    requires Trim(full) != ""
    ensures FinalLines(full) == AllLines(Split(Trim(full))) != []
  {
    TrimIsBlank(full);
    LastIsNotBlank(Trim(full));
    LastLineIsNotBlank(Split(Trim(full)));
  }

  /**
   * The wrapped text, line by line, is the trimmed text, paragraph by paragraph and sentence by sentence: a blank
   * paragraph is exactly one blank line and there is no other, every sentence begins a line, and one that fits is one.
   */
  lemma WrappedIsLaidOut(full: string)
    requires Trim(full) != ""
    ensures HoldsParagraphs(Split(Wrapped(full)), Split(Trim(full)))
  {
    NothingIsDropped(full);
    WrappedLines(full);
    SplitOfJoin(FinalLines(full));
    ParagraphsAreHeld(Split(Trim(full)));
  }

  // ---------------------------------------------------------------- columns of plain text

  /** Latin, Greek and Cyrillic text and the like counts one column a character, ideographs and kana two. */
  lemma {:induction false} WidthOfPlain(s: string)
    ensures (forall i :: 0 <= i < |s| ==> s[i] < '\U{1100}') ==> Width(s) == |s|
    ensures (forall i :: 0 <= i < |s| ==> '\U{3040}' <= s[i] <= '\U{A4CF}') ==> Width(s) == 2 * |s|
  {
    if s != "" {
      var init, c := s[..|s| - 1], s[|s| - 1];
      WidthOfPlain(init);
      if c < '\U{1100}' {
        NotWithin(c, WIDE);
      }
      if '\U{3040}' <= c <= '\U{A4CF}' {
        assert Within(c, WIDE[3..]) by { assert WIDE[3].first <= c <= WIDE[3].last; }
        assert WIDE[2..][1..] == WIDE[3..] && WIDE[1..][1..] == WIDE[2..];
        assert Within(c, WIDE[2..]) && Within(c, WIDE[1..]);
      }
    }
  }
}
