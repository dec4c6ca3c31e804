/** Compiled message catalogs: the `.mo` reader and the builder that prints such files (src/i18n.rs). */
module MoCatalog {
  import opened Net

  /** The untranslated and the translated bytes of one message. */
  datatype Pair = Pair(id: seq<byte>, str: seq<byte>)

  const MAGIC: u32 := 0x9504_12DE

  // ---------------------------------------------------------------- words in either byte order

  function WordOf(b: seq<byte>, big: bool): u32
    requires |b| == 4
  {
    if big then ((b[0] as int * 0x100 + b[1]) * 0x100 + b[2]) * 0x100 + b[3]
    else ((b[3] as int * 0x100 + b[2]) * 0x100 + b[1]) * 0x100 + b[0]
  }

  function Word(bytes: seq<byte>, off: nat, big: bool): Option<u32> {
    if off + 4 <= |bytes| then Some(WordOf(bytes[off..off + 4], big)) else None
  }

  function Put(x: u32, big: bool): (b: seq<byte>)
    ensures |b| == 4
  {
    var x1 := x / 0x100;
    var x2 := x1 / 0x100;
    if big then [x2 / 0x100, x2 % 0x100, x1 % 0x100, x % 0x100] else [x % 0x100, x1 % 0x100, x2 % 0x100, x2 / 0x100]
  }

  lemma PutIsRead(x: u32, big: bool)
    ensures WordOf(Put(x, big), big) == x
  {
  }

  /** A file whose first word is not the magic number read little-endian is taken as big-endian, unchecked. */
  predicate BigEndian(bytes: seq<byte>)
    requires |bytes| >= 4
  {
    WordOf(bytes[0..4], false) != MAGIC
  }

  // ---------------------------------------------------------------- reading

  /** String i of the table whose offset stands at `field` of the header. */
  function TableString(bytes: seq<byte>, big: bool, tab: nat, i: nat): Option<seq<byte>> {
    var len, off := Word(bytes, tab + i * 8, big), Word(bytes, tab + i * 8 + 4, big);
    if len.None? || off.None? || off.value + len.value > |bytes| then None
    else Some(bytes[off.value..off.value + len.value])
  }

  function Entry(bytes: seq<byte>, i: nat): Option<Pair>
    requires |bytes| >= 28
  {
    var big := BigEndian(bytes);
    var id := TableString(bytes, big, Word(bytes, 12, big).value, i);
    var str := TableString(bytes, big, Word(bytes, 16, big).value, i);
    if id.None? || str.None? then None else Some(Pair(id.value, str.value))
  }

  function Count(bytes: seq<byte>): nat
    requires |bytes| >= 28
  {
    Word(bytes, 8, BigEndian(bytes)).value
  }

  /** The file holds exactly these messages, in this order. */
  ghost predicate Holds(bytes: seq<byte>, pairs: seq<Pair>) {
    && |bytes| >= 28 && Count(bytes) == |pairs|
    && forall i :: 0 <= i < |pairs| ==> Entry(bytes, i) == Some(pairs[i])
  }

  function Reader(bytes: seq<byte>): nat -> Option<Pair>
    requires |bytes| >= 28
  {
    (i: nat) => Entry(bytes, i)
  }

  /** The first n items, if all of them are there. */
  function Collect(item: nat -> Option<Pair>, n: nat): (r: Option<seq<Pair>>)
    ensures r.Some? ==> |r.value| == n
  {
    if n == 0 then Some([])
    else
      var init, last := Collect(item, n - 1), item(n - 1);
      if init.None? || last.None? then None else Some(init.value + [last.value])
  }

  lemma {:induction false} CollectIs(item: nat -> Option<Pair>, n: nat, pairs: seq<Pair>)
    requires |pairs| == n
    ensures Collect(item, n) == Some(pairs) <==> forall i :: 0 <= i < n ==> item(i) == Some(pairs[i])
  {
    if n > 0 {
      CollectIs(item, n - 1, pairs[..n - 1]);
      assert pairs == pairs[..n - 1] + [pairs[n - 1]];
    }
  }

  lemma {:induction false} OneMissing(item: nat -> Option<Pair>, i: nat, n: nat)
    requires i < n && item(i).None?
    ensures Collect(item, n).None?
  {
    if i < n - 1 {
      OneMissing(item, i, n - 1);
    }
  }

  lemma {:induction false} NoneMissing(item: nat -> Option<Pair>, n: nat)
    requires forall i :: 0 <= i < n ==> item(i).Some?
    ensures Collect(item, n).Some?
  {
    if n > 0 {
      NoneMissing(item, n - 1);
    }
  }

  /** What the reader makes of any bytes whatever. */
  function Parsed(bytes: seq<byte>, text: seq<byte> -> string): Option<map<string, string>> {
    if |bytes| < 28 || Collect(Reader(bytes), Count(bytes)).None? then None
    else Some(Catalog(Collect(Reader(bytes), Count(bytes)).value, text))
  }

  /** The reader fails exactly when the file is too short for a header or for a message it announces. */
  lemma FailsExactly(bytes: seq<byte>, text: seq<byte> -> string)
    ensures Parsed(bytes, text).None? <==> |bytes| < 28 || exists i: nat :: i < Count(bytes) && Reader(bytes)(i).None?
  {
    if |bytes| >= 28 {
      if i: nat :| i < Count(bytes) && Reader(bytes)(i).None? {
        OneMissing(Reader(bytes), i, Count(bytes));
      } else {
        NoneMissing(Reader(bytes), Count(bytes));
      }
    }
  }

  /** The last message of an id wins; the message with the empty id, the file's header, is left out. */
  function Catalog(pairs: seq<Pair>, text: seq<byte> -> string): map<string, string> {
    if pairs == [] then map[]
    else
      var before, last := Catalog(pairs[..|pairs| - 1], text), pairs[|pairs| - 1];
      if last.id == [] then before else before[text(last.id) := text(last.str)]
  }

  lemma CatalogAppend(pairs: seq<Pair>, p: Pair, text: seq<byte> -> string)
    ensures var before := Catalog(pairs, text);
            Catalog(pairs + [p], text) == if p.id == [] then before else before[text(p.id) := text(p.str)]
  {
    assert (pairs + [p])[..|pairs|] == pairs;
  }

  /** `parse_mo`; `text` is the lossy UTF-8 decoding. */
  method ParseMo(bytes: seq<byte>, text: seq<byte> -> string) returns (r: Option<map<string, string>>)
    ensures r == Parsed(bytes, text)
  {
    if |bytes| < 28 {
      return None;
    }
    var big := BigEndian(bytes);
    var n := Word(bytes, 8, big).value;
    var origTab, transTab := Word(bytes, 12, big).value, Word(bytes, 16, big).value;
    ghost var item := Reader(bytes);
    var catalog: map<string, string> := map[];
    for i := 0 to n
      invariant Collect(item, i).Some? && catalog == Catalog(Collect(item, i).value, text)
    {
      var orig := TableString(bytes, big, origTab, i);
      if orig.None? {
        OneMissing(item, i, n);
        return None;
      }
      var trans := TableString(bytes, big, transTab, i);
      if trans.None? {
        OneMissing(item, i, n);
        return None;
      }
      CatalogAppend(Collect(item, i).value, Pair(orig.value, trans.value), text);
      if orig.value != [] {
        catalog := catalog[text(orig.value) := text(trans.value)];
      }
    }
    r := Some(catalog);
  }

  /** Whatever messages a file holds, in either byte order, the reader's catalog is theirs. */
  lemma FileReadsBack(file: seq<byte>, pairs: seq<Pair>, text: seq<byte> -> string)
    requires Holds(file, pairs)
    ensures Parsed(file, text) == Some(Catalog(pairs, text))
  {
    CollectIs(Reader(file), |pairs|, pairs);
  }

  /** What a catalog says about one id is what the last message with that id says. */
  lemma {:induction false} LastOneWins(pairs: seq<Pair>, text: seq<byte> -> string, i: nat)
    requires i < |pairs| && pairs[i].id != []
    requires forall j :: i < j < |pairs| && pairs[j].id != [] ==> text(pairs[j].id) != text(pairs[i].id)
    ensures text(pairs[i].id) in Catalog(pairs, text)
    ensures Catalog(pairs, text)[text(pairs[i].id)] == text(pairs[i].str)
  {
    var k := |pairs| - 1;
    if i < k {
      assert pairs[..k][i] == pairs[i];
      LastOneWins(pairs[..k], text, i);
    }
  }

  /** And it says nothing about other ids, the empty one among them. */
  lemma {:induction false} NothingElse(pairs: seq<Pair>, text: seq<byte> -> string, key: string)
    requires forall j :: 0 <= j < |pairs| && pairs[j].id != [] ==> text(pairs[j].id) != key
    ensures key !in Catalog(pairs, text)
  {
    if pairs != [] {
      NothingElse(pairs[..|pairs| - 1], text, key);
    }
  }

  // ---------------------------------------------------------------- files made of words

  /** `piece` stands at `off`. */
  predicate Part(file: seq<byte>, off: nat, piece: seq<byte>) {
    off + |piece| <= |file| && file[off..off + |piece|] == piece
  }

  lemma PartOfFront(a: seq<byte>, b: seq<byte>, off: nat, piece: seq<byte>)
    requires Part(a, off, piece)
    ensures Part(a + b, off, piece)
  {
    assert (a + b)[off..off + |piece|] == a[off..off + |piece|];
  }

  lemma PartOfBack(a: seq<byte>, b: seq<byte>, off: nat, piece: seq<byte>)
    requires Part(b, off, piece)
    ensures Part(a + b, |a| + off, piece)
  {
    assert (a + b)[|a| + off..|a| + off + |piece|] == b[off..off + |piece|];
  }

  function Words(ws: seq<u32>, big: bool): (b: seq<byte>)
    ensures |b| == 4 * |ws|
  {
    if ws == [] then [] else Words(ws[..|ws| - 1], big) + Put(ws[|ws| - 1], big)
  }

  lemma WordsAppend(ws: seq<u32>, x: u32, big: bool)
    ensures Words(ws + [x], big) == Words(ws, big) + Put(x, big)
  {
    assert (ws + [x])[..|ws|] == ws;
  }

  lemma {:induction false} WordsAt(ws: seq<u32>, big: bool, i: nat)
    requires i < |ws|
    ensures Part(Words(ws, big), 4 * i, Put(ws[i], big))
  {
    var k := |ws| - 1;
    var init, last := Words(ws[..k], big), Put(ws[k], big);
    if i < k {
      WordsAt(ws[..k], big, i);
      PartOfFront(init, last, 4 * i, Put(ws[i], big));
    } else {
      PartOfBack(init, last, 0, last);
    }
  }

  /** What the reader gets for word i. */
  lemma WordIsRead(ws: seq<u32>, rest: seq<byte>, big: bool, i: nat)
    requires i < |ws|
    ensures Word(Words(ws, big) + rest, 4 * i, big) == Some(ws[i])
  {
    WordsAt(ws, big, i);
    PartOfFront(Words(ws, big), rest, 4 * i, Put(ws[i], big));
    PutIsRead(ws[i], big);
  }

  lemma MagicTellsTheOrder(ws: seq<u32>, rest: seq<byte>, big: bool)
    requires ws != [] && ws[0] == MAGIC
    ensures BigEndian(Words(ws, big) + rest) == big
  {
    WordsAt(ws, big, 0);
    PartOfFront(Words(ws, big), rest, 0, Put(MAGIC, big));
    PutIsRead(MAGIC, false);
    FlippedMagic();
  }

  lemma FlippedMagic()
    ensures WordOf(Put(MAGIC, true), false) != MAGIC
  {
    assert Put(MAGIC, true) == [0x95, 0x04, 0x12, 0xDE];
  }

  // ---------------------------------------------------------------- building

  datatype Desc = Desc(len: u32, off: u32)

  function Fields(descs: seq<Desc>): (ws: seq<u32>)
    ensures |ws| == 2 * |descs|
  {
    if descs == [] then [] else Fields(descs[..|descs| - 1]) + [descs[|descs| - 1].len, descs[|descs| - 1].off]
  }

  lemma {:induction false} FieldsAt(descs: seq<Desc>, i: nat)
    requires i < |descs|
    ensures Fields(descs)[2 * i] == descs[i].len && Fields(descs)[2 * i + 1] == descs[i].off
  {
    if i < |descs| - 1 {
      FieldsAt(descs[..|descs| - 1], i);
    }
  }

  function Header(n: u32, trans: u32): seq<u32> {
    [MAGIC, 0, n, 28, trans, 0, 0]
  }

  /** The size of the string part. */
  function BodySize(pairs: seq<Pair>): nat {
    if pairs == [] then 0
    else BodySize(pairs[..|pairs| - 1]) + |pairs[|pairs| - 1].id| + |pairs[|pairs| - 1].str| + 2
  }

  lemma {:induction false} BodyGrows(pairs: seq<Pair>, i: nat)
    requires i < |pairs|
    ensures BodySize(pairs[..i + 1]) == BodySize(pairs[..i]) + |pairs[i].id| + |pairs[i].str| + 2
    ensures BodySize(pairs[..i + 1]) <= BodySize(pairs)
    decreases |pairs| - i
  {
    assert pairs[..i + 1][..i] == pairs[..i];
    if i + 1 == |pairs| {
      assert pairs[..i + 1] == pairs;
    } else {
      BodyGrows(pairs, i + 1);
    }
  }

  /** The descriptor finds s in the body of a file whose body starts at `base`. */
  predicate Finds(d: Desc, body: seq<byte>, base: nat, s: seq<byte>) {
    d.len == |s| && base <= d.off && Part(body, d.off - base, s)
  }

  /** Each descriptor finds its string. */
  ghost predicate AllFound(pairs: seq<Pair>, origs: seq<Desc>, trans: seq<Desc>, body: seq<byte>, base: nat) {
    && |origs| == |trans| <= |pairs|
    && (forall j :: 0 <= j < |origs| ==> Finds(origs[j], body, base, pairs[j].id))
    && (forall j :: 0 <= j < |trans| ==> Finds(trans[j], body, base, pairs[j].str))
  }

  lemma StillFound(pairs: seq<Pair>, origs: seq<Desc>, trans: seq<Desc>, body: seq<byte>, base: nat, more: seq<byte>)
    requires AllFound(pairs, origs, trans, body, base)
    ensures AllFound(pairs, origs, trans, body + more, base)
  {
    forall j | 0 <= j < |origs|
      ensures Finds(origs[j], body + more, base, pairs[j].id) && Finds(trans[j], body + more, base, pairs[j].str)
    {
      PartOfFront(body, more, origs[j].off - base, pairs[j].id);
      PartOfFront(body, more, trans[j].off - base, pairs[j].str);
    }
  }

  lemma NewFound(p: Pair, body: seq<byte>, base: nat, o: Desc, t: Desc)
    requires o.len == |p.id| && o.off == base + |body|
    requires t.len == |p.str| && t.off == base + |body| + |p.id| + 1
    ensures Finds(o, body + (p.id + [0] + p.str + [0]), base, p.id)
    ensures Finds(t, body + (p.id + [0] + p.str + [0]), base, p.str)
  {
    var more := p.id + [0] + p.str + [0];
    assert Part(more, 0, p.id) && Part(more, |p.id| + 1, p.str);
    PartOfBack(body, more, 0, p.id);
    PartOfBack(body, more, |p.id| + 1, p.str);
  }

  lemma OneMoreFound(pairs: seq<Pair>, origs: seq<Desc>, trans: seq<Desc>, body: seq<byte>, base: nat, o: Desc, t: Desc)
    requires AllFound(pairs, origs, trans, body, base) && |origs| < |pairs|
    requires var p := pairs[|origs|];
             && o.len == |p.id| && o.off == base + |body|
             && t.len == |p.str| && t.off == base + |body| + |p.id| + 1
    ensures var p := pairs[|origs|];
            AllFound(pairs, origs + [o], trans + [t], body + p.id + [0] + p.str + [0], base)
  {
    var p := pairs[|origs|];
    var more := p.id + [0] + p.str + [0];
    assert body + p.id + [0] + p.str + [0] == body + more;
    StillFound(pairs, origs, trans, body, base, more);
    NewFound(p, body, base, o, t);
  }

  /** The builder: header, both tables, then the strings, each ended by a zero byte. */
  method BuildMo(pairs: seq<Pair>, big: bool) returns (out: seq<byte>)
    requires 28 + 16 * |pairs| + BodySize(pairs) < 0x1_0000_0000
    ensures Holds(out, pairs)
  {
    var n := |pairs|;
    var base := 28 + 2 * n * 8;
    var body, origs, trans := LayStrings(pairs, base);
    out := PutFront(n, origs, trans, big);
    LaidOut(pairs, origs, trans, body, base, big);
    out := out + body;
  }

  /** The header and both tables. */
  method PutFront(n: nat, origs: seq<Desc>, trans: seq<Desc>, big: bool) returns (out: seq<byte>)
    requires 28 + n * 8 < 0x1_0000_0000
    ensures out == Words(Header(n, 28 + n * 8) + Fields(origs) + Fields(trans), big)
  {
    var header := Header(n, 28 + n * 8);
    out := Words(header, big);
    out := PutTable(out, header, origs, big);
    out := PutTable(out, header + Fields(origs), trans, big);
  }

  /** The builder's first loop: the strings, and where they will stand in the file. */
  method LayStrings(pairs: seq<Pair>, base: nat) returns (body: seq<byte>, origs: seq<Desc>, trans: seq<Desc>)
    requires base + BodySize(pairs) < 0x1_0000_0000
    ensures |origs| == |pairs| && AllFound(pairs, origs, trans, body, base)
  {
    body, origs, trans := [], [], [];
    for i := 0 to |pairs|
      invariant |origs| == i && |body| == BodySize(pairs[..i])
      invariant AllFound(pairs, origs, trans, body, base)
    {
      BodyGrows(pairs, i);
      var id, str := pairs[i].id, pairs[i].str;
      var o := Desc(|id|, base + |body|);
      var t := Desc(|str|, base + |body| + |id| + 1);
      OneMoreFound(pairs, origs, trans, body, base, o, t);
      origs := origs + [o];
      body := body + id + [0];
      trans := trans + [t];
      body := body + str + [0];
    }
  }

  /** One descriptor table, appended word by word. */
  method PutTable(front: seq<byte>, ghost ws: seq<u32>, descs: seq<Desc>, big: bool) returns (out: seq<byte>)
    requires front == Words(ws, big)
    ensures out == Words(ws + Fields(descs), big)
  {
    out := front;
    assert ws + Fields([]) == ws;
    for i := 0 to |descs|
      invariant out == Words(ws + Fields(descs[..i]), big)
    {
      AppendDesc(ws, descs, i, big);
      out := out + Put(descs[i].len, big) + Put(descs[i].off, big);
    }
    assert descs[..|descs|] == descs;
  }

  lemma AppendDesc(ws: seq<u32>, descs: seq<Desc>, i: nat, big: bool)
    requires i < |descs|
    ensures Words(ws + Fields(descs[..i + 1]), big)
            == Words(ws + Fields(descs[..i]), big) + Put(descs[i].len, big) + Put(descs[i].off, big)
  {
    var front := ws + Fields(descs[..i]);
    assert descs[..i + 1][..i] == descs[..i];
    assert ws + Fields(descs[..i + 1]) == front + [descs[i].len] + [descs[i].off];
    WordsAppend(front, descs[i].len, big);
    WordsAppend(front + [descs[i].len], descs[i].off, big);
  }

  lemma StringIsRead(file: seq<byte>, big: bool, tab: nat, i: nat, d: Desc, s: seq<byte>)
    requires Word(file, tab + i * 8, big) == Some(d.len) && Word(file, tab + i * 8 + 4, big) == Some(d.off)
    requires Part(file, d.off, s) && |s| == d.len
    ensures TableString(file, big, tab, i) == Some(s)
  {
  }

  lemma DescIsRead(ws: seq<u32>, body: seq<byte>, big: bool, k: nat, off: nat, d: Desc)
    requires k + 1 < |ws| && ws[k] == d.len && ws[k + 1] == d.off && off == 4 * k
    ensures Word(Words(ws, big) + body, off, big) == Some(d.len)
    ensures Word(Words(ws, big) + body, off + 4, big) == Some(d.off)
  {
    WordIsRead(ws, body, big, k);
    WordIsRead(ws, body, big, k + 1);
  }

  /** Descriptor i of a table that starts at word `at`, and the string it finds behind the words. */
  lemma TableIsRead(ws: seq<u32>, body: seq<byte>, base: nat, big: bool, at: nat, tab: nat, descs: seq<Desc>, i: nat, s: seq<byte>)
    requires tab == 4 * at && at + 2 * |descs| <= |ws|
    requires forall k :: 0 <= k < 2 * |descs| ==> ws[at + k] == Fields(descs)[k]
    requires base == 4 * |ws| && i < |descs| && Finds(descs[i], body, base, s)
    ensures TableString(Words(ws, big) + body, big, tab, i) == Some(s)
  {
    FieldsAt(descs, i);
    assert ws[at + 2 * i] == Fields(descs)[2 * i] && ws[at + (2 * i + 1)] == Fields(descs)[2 * i + 1];
    DescIsRead(ws, body, big, at + 2 * i, tab + i * 8, descs[i]);
    PartOfBack(Words(ws, big), body, descs[i].off - base, s);
    StringIsRead(Words(ws, big) + body, big, tab, i, descs[i], s);
  }

  lemma EntryIsRead(file: seq<byte>, big: bool, transTab: u32, i: nat, p: Pair)
    requires |file| >= 28 && BigEndian(file) == big
    requires Word(file, 12, big) == Some(28) && Word(file, 16, big) == Some(transTab)
    requires TableString(file, big, 28, i) == Some(p.id) && TableString(file, big, transTab, i) == Some(p.str)
    ensures Entry(file, i) == Some(p)
  {
  }

  lemma HeaderIsRead(n: u32, tab: u32, more: seq<u32>, body: seq<byte>, big: bool)
    ensures var file := Words(Header(n, tab) + more, big) + body;
            && |file| >= 28 && BigEndian(file) == big && Word(file, 8, big) == Some(n)
            && Word(file, 12, big) == Some(28) && Word(file, 16, big) == Some(tab)
  {
    var ws := Header(n, tab) + more;
    MagicTellsTheOrder(ws, body, big);
    WordIsRead(ws, body, big, 2);
    WordIsRead(ws, body, big, 3);
    WordIsRead(ws, body, big, 4);
  }

  lemma LaidOut(pairs: seq<Pair>, origs: seq<Desc>, trans: seq<Desc>, body: seq<byte>, base: nat, big: bool)
    requires base == 28 + 16 * |pairs| < 0x1_0000_0000 && |origs| == |pairs|
    requires AllFound(pairs, origs, trans, body, base)
    ensures Holds(Words(Header(|pairs|, 28 + |pairs| * 8) + Fields(origs) + Fields(trans), big) + body, pairs)
  {
    var n, tab := |pairs|, 28 + |pairs| * 8;
    var ws := Header(n, tab) + Fields(origs) + Fields(trans);
    var file := Words(ws, big) + body;
    assert ws == Header(n, tab) + (Fields(origs) + Fields(trans));
    HeaderIsRead(n, tab, Fields(origs) + Fields(trans), body, big);
    forall i | 0 <= i < n ensures Entry(file, i) == Some(pairs[i]) {
      TableIsRead(ws, body, base, big, 7, 28, origs, i, pairs[i].id);
      TableIsRead(ws, body, base, big, 7 + 2 * n, tab, trans, i, pairs[i].str);
      EntryIsRead(file, big, tab, i, pairs[i]);
    }
  }

  // ---------------------------------------------------------------- the file format, spelled out

  /** The number that four bytes of the file spell in its byte order. */
  ghost function Number(bytes: seq<byte>, off: nat): nat
    requires |bytes| >= 28 && off + 4 <= |bytes|
  {
    if bytes[..4] == [0xDE, 0x12, 0x04, 0x95]
    then bytes[off] + 0x100 * bytes[off + 1] as int + 0x1_0000 * bytes[off + 2] as int + 0x100_0000 * bytes[off + 3] as int
    else FromBE(bytes[off..off + 4])
  }

  /** String i of the table the header names at `field` is s: its length and offset stand in the table, and s there. */
  ghost predicate Stands(bytes: seq<byte>, field: nat, i: nat, s: seq<byte>)
    requires |bytes| >= 28 && field <= 24
  {
    var at := Number(bytes, field) + 8 * i;
    at + 8 <= |bytes| && Number(bytes, at) == |s| && Part(bytes, Number(bytes, at + 4), s)
  }

  lemma WordIsNumber(bytes: seq<byte>, off: nat)
    requires |bytes| >= 28 && off + 4 <= |bytes|
    ensures Word(bytes, off, BigEndian(bytes)) == Some(Number(bytes, off))
  {
    OrderIsTold(bytes);
    FourBytes(bytes[off..off + 4]);
  }

  lemma OrderIsTold(bytes: seq<byte>)
    requires |bytes| >= 4
    ensures !BigEndian(bytes) <==> bytes[..4] == [0xDE, 0x12, 0x04, 0x95]
  {
    var b := bytes[0..4];
    assert b == bytes[..4] && b == [b[0], b[1], b[2], b[3]];
  }

  lemma FourBytes(s: seq<byte>)
    requires |s| == 4
    ensures FromBE(s) == WordOf(s, true)
  {
    assert s[..3][..2] == s[..2] && s[..2][..1] == s[..1] && s[..1][..0] == [];
    assert FromBE(s[..1]) == s[0];
    assert FromBE(s[..2]) == FromBE(s[..1]) * 0x100 + s[1];
    assert FromBE(s[..3]) == FromBE(s[..2]) * 0x100 + s[2];
    assert FromBE(s) == FromBE(s[..3]) * 0x100 + s[3];
  }

  /** Whatever the bytes: the reader finds message i exactly where both tables and both strings are whole. */
  lemma EntryExactly(bytes: seq<byte>, i: nat, p: Pair)
    requires |bytes| >= 28
    ensures Count(bytes) == Number(bytes, 8)
    ensures Entry(bytes, i) == Some(p) <==> Stands(bytes, 12, i, p.id) && Stands(bytes, 16, i, p.str)
  {
    WordIsNumber(bytes, 8);
    StandsExactly(bytes, 12, i, p.id);
    StandsExactly(bytes, 16, i, p.str);
  }

  lemma TableStringIs(bytes: seq<byte>, big: bool, tab: nat, i: nat, s: seq<byte>)
    requires tab + 8 * i + 8 <= |bytes|
    ensures TableString(bytes, big, tab, i) == Some(s) <==>
            && Word(bytes, tab + i * 8, big).value == |s|
            && Part(bytes, Word(bytes, tab + i * 8 + 4, big).value, s)
  {
  }

  lemma TableIsCut(bytes: seq<byte>, big: bool, tab: nat, i: nat)
    requires tab + 8 * i + 8 > |bytes|
    ensures TableString(bytes, big, tab, i) == None
  {
  }

  lemma StandsExactly(bytes: seq<byte>, field: nat, i: nat, s: seq<byte>)
    requires |bytes| >= 28 && field <= 24
    ensures Word(bytes, field, BigEndian(bytes)) == Some(Number(bytes, field))
    ensures TableString(bytes, BigEndian(bytes), Number(bytes, field), i) == Some(s) <==> Stands(bytes, field, i, s)
  {
    WordIsNumber(bytes, field);
    var at := Number(bytes, field) + 8 * i;
    if at + 8 <= |bytes| {
      WordIsNumber(bytes, at);
      WordIsNumber(bytes, at + 4);
      TableStringIs(bytes, BigEndian(bytes), Number(bytes, field), i, s);
    } else {
      TableIsCut(bytes, BigEndian(bytes), Number(bytes, field), i);
    }
  }
}
