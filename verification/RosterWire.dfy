/** The roster's wire format (src/tun_roster.rs). */
module RosterWire {
  import opened Net
  import opened RosterTypes
  import opened ByteStream

  const ROSTER_MAGIC: seq<byte> := [0x4C, 0x50, 0x52, 0x33]
  const MSG_SNAPSHOT: byte := 1
  const MSG_JOINED: byte := 2
  const MSG_LEFT: byte := 3
  const MSG_HELLO: byte := 4
  const ENTRY_LEN := 52

  // ---------------------------------------------------------------- entries

  function EntryBytes(e: RosterEntry): (b: seq<byte>)
    ensures |b| == ENTRY_LEN
  {
    PowersOf256();
    BE(4, e.vips.v4) + BE(16, e.vips.v6) + BE(32, e.id)
  }

  /** `RosterEntry::decode` of a whole entry; `valid` tells which 32 bytes are an endpoint id. */
  function DecodeEntry(b: seq<byte>, valid: EndpointId -> bool): Option<RosterEntry>
    requires |b| == ENTRY_LEN
  {
    PowersOf256();
    var id: EndpointId := FromBE(b[20..52]);
    if valid(id) then Some(RosterEntry(Vips(FromBE(b[..4]), FromBE(b[4..20])), id)) else None
  }

  lemma EntryReadsBack(e: RosterEntry, valid: EndpointId -> bool)
    ensures DecodeEntry(EntryBytes(e), valid) == if valid(e.id) then Some(e) else None
  {
    PowersOf256();
    var b := EntryBytes(e);
    assert b[..4] == BE(4, e.vips.v4) && b[4..20] == BE(16, e.vips.v6) && b[20..52] == BE(32, e.id);
    FromBEofBE(4, e.vips.v4);
    FromBEofBE(16, e.vips.v6);
    FromBEofBE(32, e.id);
  }

  lemma EntryIsCanonical(b: seq<byte>, valid: EndpointId -> bool)
    requires |b| == ENTRY_LEN && DecodeEntry(b, valid).Some?
    ensures EntryBytes(DecodeEntry(b, valid).value) == b && valid(DecodeEntry(b, valid).value.id)
  {
    PowersOf256();
    BEofFromBE(b[..4]);
    BEofFromBE(b[4..20]);
    BEofFromBE(b[20..52]);
    assert b == b[..4] + b[4..20] + b[20..52];
  }

  // ---------------------------------------------------------------- entry lists

  function EntriesBytes(es: seq<RosterEntry>): seq<byte> {
    if es == [] then [] else EntryBytes(es[0]) + EntriesBytes(es[1..])
  }

  function ReadEntry(bytes: seq<byte>, valid: EndpointId -> bool): Read<RosterEntry> {
    var b := Take(bytes, ENTRY_LEN);
    if b.Bad? || DecodeEntry(b.value, valid).None? then Bad else Got(DecodeEntry(b.value, valid).value, b.rest)
  }

  function ReadEntries(bytes: seq<byte>, n: nat, valid: EndpointId -> bool): (r: Read<seq<RosterEntry>>)
    ensures r.Got? ==> |r.value| == n && |r.rest| <= |bytes|
  {
    if n == 0 then Got([], bytes)
    else
      var first := ReadEntry(bytes, valid);
      if first.Bad? then Bad
      else
        var others := ReadEntries(first.rest, n - 1, valid);
        if others.Bad? then Bad else Got([first.value] + others.value, others.rest)
  }

  lemma EntryIsSelfDelimiting(e: RosterEntry, tail: seq<byte>, valid: EndpointId -> bool)
    requires valid(e.id)
    ensures ReadEntry(EntryBytes(e) + tail, valid) == Got(e, tail)
  {
    EntryReadsBack(e, valid);
    TakeFront(EntryBytes(e), tail);
  }

  lemma ReadMore(bytes: seq<byte>, e: RosterEntry, rest: seq<byte>, es: seq<RosterEntry>, tail: seq<byte>, valid: EndpointId -> bool)
    requires ReadEntry(bytes, valid) == Got(e, rest) && ReadEntries(rest, |es|, valid) == Got(es, tail)
    ensures ReadEntries(bytes, |es| + 1, valid) == Got([e] + es, tail)
  {
  }

  lemma {:induction false} EntriesReadBack(es: seq<RosterEntry>, tail: seq<byte>, valid: EndpointId -> bool)
    requires forall e :: e in es ==> valid(e.id)
    ensures ReadEntries(EntriesBytes(es) + tail, |es|, valid) == Got(es, tail)
  {
    if es == [] {
      assert EntriesBytes(es) + tail == tail;
    } else {
      var e, others, more := es[0], es[1..], EntriesBytes(es[1..]) + tail;
      assert EntriesBytes(es) + tail == EntryBytes(e) + more;
      EntryIsSelfDelimiting(e, more, valid);
      EntriesReadBack(others, tail, valid);
      ReadMore(EntriesBytes(es) + tail, e, more, others, tail, valid);
      assert es == [e] + others;
    }
  }

  lemma EntryOnlyEncoding(bytes: seq<byte>, valid: EndpointId -> bool)
    requires ReadEntry(bytes, valid).Got?
    ensures bytes == EntryBytes(ReadEntry(bytes, valid).value) + ReadEntry(bytes, valid).rest
  {
    EntryIsCanonical(bytes[..ENTRY_LEN], valid);
  }

  lemma EntriesBytesStep(e: RosterEntry, es: seq<RosterEntry>, tail: seq<byte>)
    ensures EntriesBytes([e] + es) + tail == EntryBytes(e) + (EntriesBytes(es) + tail)
  {
    assert ([e] + es)[1..] == es;
  }

  lemma {:induction false} EntriesOnlyEncoding(bytes: seq<byte>, n: nat, valid: EndpointId -> bool)
    requires ReadEntries(bytes, n, valid).Got?
    ensures bytes == EntriesBytes(ReadEntries(bytes, n, valid).value) + ReadEntries(bytes, n, valid).rest
  {
    if n > 0 {
      var first := ReadEntry(bytes, valid);
      var others := ReadEntries(first.rest, n - 1, valid);
      EntryOnlyEncoding(bytes, valid);
      EntriesOnlyEncoding(first.rest, n - 1, valid);
      EntriesBytesStep(first.value, others.value, others.rest);
    }
  }

  // ---------------------------------------------------------------- messages

  function CountBytes(n: u16): (b: seq<byte>)
    ensures |b| == 2
  {
    [n / 0x100, n % 0x100]
  }

  function CountOf(b: seq<byte>): u16
    requires |b| == 2
  {
    b[0] as int * 0x100 + b[1]
  }

  function EncodeMsg(m: RosterMsg): seq<byte> {
    match m
    case Snapshot(es) => ROSTER_MAGIC + [MSG_SNAPSHOT] + (CountBytes(|Capped(es)|) + EntriesBytes(Capped(es)))
    case Joined(e) => ROSTER_MAGIC + [MSG_JOINED] + EntryBytes(e)
    case Left(e) => ROSTER_MAGIC + [MSG_LEFT] + EntryBytes(e)
  }

  /** The message the other side gets: a snapshot is cut to its first 4096 entries. */
  function Sent(m: RosterMsg): RosterMsg {
    if m.Snapshot? then Snapshot(Capped(m.entries)) else m
  }

  function ParseSnapshot(body: seq<byte>, valid: EndpointId -> bool): Read<RosterMsg> {
    var count := Take(body, 2);
    if count.Bad? || CountOf(count.value) > ROSTER_MAX_ENTRIES then Bad
    else
      var es := ReadEntries(count.rest, CountOf(count.value), valid);
      if es.Bad? then Bad else Got(Snapshot(es.value), es.rest)
  }

  function ParseMsg(bytes: seq<byte>, valid: EndpointId -> bool): Read<RosterMsg> {
    var hdr := Take(bytes, 5);
    if hdr.Bad? || hdr.value[..4] != ROSTER_MAGIC then Bad
    else if hdr.value[4] == MSG_SNAPSHOT then ParseSnapshot(hdr.rest, valid)
    else if hdr.value[4] == MSG_JOINED || hdr.value[4] == MSG_LEFT then
      var e := ReadEntry(hdr.rest, valid);
      if e.Bad? then Bad
      else Got(if hdr.value[4] == MSG_JOINED then Joined(e.value) else Left(e.value), e.rest)
    else Bad
  }

  method EncodeSnapshot(entries: seq<RosterEntry>) returns (out: seq<byte>)
    ensures out == EncodeMsg(Snapshot(entries))
  {
    var n := Min(|entries|, ROSTER_MAX_ENTRIES);
    out := ROSTER_MAGIC + [MSG_SNAPSHOT];
    out := out + CountBytes(n);
    ghost var front, es := out, Capped(entries);
    assert |es| == n && es[0..] == es;
    for i := 0 to n
      invariant out + EntriesBytes(es[i..]) == front + EntriesBytes(es)
    {
      assert es[i..][0] == entries[i] && es[i..][1..] == es[i + 1..];
      assert out + (EntryBytes(es[i]) + EntriesBytes(es[i + 1..])) == out + EntryBytes(es[i]) + EntriesBytes(es[i + 1..]);
      out := out + EntryBytes(entries[i]);
    }
    assert es[n..] == [] && out + [] == out;
    assert front + EntriesBytes(es) == EncodeMsg(Snapshot(entries));
  }

  /** `read_msg`. */
  method ReadMsg(r: Stream, valid: EndpointId -> bool) returns (m: Option<RosterMsg>)
    modifies r
    ensures match ParseMsg(old(r.rest), valid)
            case Got(value, rest) => m == Some(value) && r.rest == rest
            case Bad => m == None
  {
    var hdr := r.ReadExact(5);
    if hdr.None? || hdr.value[..4] != ROSTER_MAGIC {
      return None;
    }
    if hdr.value[4] == MSG_SNAPSHOT {
      m := ReadSnapshot(r, valid);
    } else if hdr.value[4] == MSG_JOINED || hdr.value[4] == MSG_LEFT {
      var b := r.ReadExact(ENTRY_LEN);
      if b.None? {
        return None;
      }
      var e := DecodeEntry(b.value, valid);
      if e.None? {
        return None;
      }
      m := Some(if hdr.value[4] == MSG_JOINED then Joined(e.value) else Left(e.value));
    } else {
      m := None;
    }
  }

  method ReadSnapshot(r: Stream, valid: EndpointId -> bool) returns (m: Option<RosterMsg>)
    modifies r
    ensures match ParseSnapshot(old(r.rest), valid)
            case Got(value, rest) => m == Some(value) && r.rest == rest
            case Bad => m == None
  {
    var nb := r.ReadExact(2);
    if nb.None? || CountOf(nb.value) > ROSTER_MAX_ENTRIES {
      return None;
    }
    var entries := ReadList(r, CountOf(nb.value), valid);
    m := if entries.None? then None else Some(Snapshot(entries.value));
  }

  /** The entries of a snapshot. */
  method ReadList(r: Stream, n: nat, valid: EndpointId -> bool) returns (list: Option<seq<RosterEntry>>)
    modifies r
    ensures match ReadEntries(old(r.rest), n, valid)
            case Got(value, rest) => list == Some(value) && r.rest == rest
            case Bad => list == None
  {
    var entries: seq<RosterEntry> := [];
    ghost var all := ReadEntries(r.rest, n, valid);
    BehindNothing(all);
    for i := 0 to n
      invariant all == Behind(entries, ReadEntries(r.rest, n - i, valid))
    {
      ghost var before := r.rest;
      var b := r.ReadExact(ENTRY_LEN);
      if b.None? {
        return None;
      }
      var e := DecodeEntry(b.value, valid);
      if e.None? {
        return None;
      }
      assert ReadEntry(before, valid) == Got(e.value, r.rest);
      BehindStep(entries, e.value, ReadEntries(r.rest, n - i - 1, valid));
      entries := entries + [e.value];
    }
    assert entries + [] == entries;
    list := Some(entries);
  }

  function Behind(read: seq<RosterEntry>, more: Read<seq<RosterEntry>>): Read<seq<RosterEntry>> {
    if more.Bad? then Bad else Got(read + more.value, more.rest)
  }

  lemma BehindNothing(more: Read<seq<RosterEntry>>)
    ensures Behind([], more) == more
  {
    if more.Got? {
      assert [] + more.value == more.value;
    }
  }

  lemma BehindStep(read: seq<RosterEntry>, e: RosterEntry, more: Read<seq<RosterEntry>>)
    ensures Behind(read, if more.Bad? then Bad else Got([e] + more.value, more.rest)) == Behind(read + [e], more)
  {
    if more.Got? {
      assert read + ([e] + more.value) == read + [e] + more.value;
    }
  }

  ghost predicate AllValid(m: RosterMsg, valid: EndpointId -> bool) {
    match m
    case Snapshot(es) => forall e :: e in es ==> valid(e.id)
    case Joined(e) => valid(e.id)
    case Left(e) => valid(e.id)
  }

  lemma HeaderReads(kind: byte, body: seq<byte>)
    ensures Take(ROSTER_MAGIC + [kind] + body, 5) == Got(ROSTER_MAGIC + [kind], body)
  {
    TakeFront(ROSTER_MAGIC + [kind], body);
  }

  lemma CountReadsBack(n: u16)
    ensures CountOf(CountBytes(n)) == n
  {
  }

  lemma SnapshotReadsBack(es: seq<RosterEntry>, tail: seq<byte>, valid: EndpointId -> bool)
    requires |es| <= ROSTER_MAX_ENTRIES && forall e :: e in es ==> valid(e.id)
    ensures ParseSnapshot(CountBytes(|es|) + (EntriesBytes(es) + tail), valid) == Got(Snapshot(es), tail)
  {
    TakeFront(CountBytes(|es|), EntriesBytes(es) + tail);
    CountReadsBack(|es|);
    EntriesReadBack(es, tail, valid);
  }

  /** A message is read back whatever follows it, a snapshot cut to its first 4096 entries. */
  lemma MsgReadsBack(m: RosterMsg, tail: seq<byte>, valid: EndpointId -> bool)
    requires AllValid(m, valid)
    ensures ParseMsg(EncodeMsg(m) + tail, valid) == Got(Sent(m), tail)
  {
    match m
    case Snapshot(es) =>
      var body := CountBytes(|Capped(es)|) + EntriesBytes(Capped(es));
      assert EncodeMsg(m) + tail == ROSTER_MAGIC + [MSG_SNAPSHOT] + (body + tail);
      HeaderReads(MSG_SNAPSHOT, body + tail);
      assert body + tail == CountBytes(|Capped(es)|) + (EntriesBytes(Capped(es)) + tail);
      SnapshotReadsBack(Capped(es), tail, valid);
    case Joined(e) =>
      assert EncodeMsg(m) + tail == ROSTER_MAGIC + [MSG_JOINED] + (EntryBytes(e) + tail);
      HeaderReads(MSG_JOINED, EntryBytes(e) + tail);
      EntryIsSelfDelimiting(e, tail, valid);
    case Left(e) =>
      assert EncodeMsg(m) + tail == ROSTER_MAGIC + [MSG_LEFT] + (EntryBytes(e) + tail);
      HeaderReads(MSG_LEFT, EntryBytes(e) + tail);
      EntryIsSelfDelimiting(e, tail, valid);
  }

  lemma CountIsCanonical(b: seq<byte>)
    requires |b| == 2
    ensures CountBytes(CountOf(b)) == b
  {
  }

  lemma SnapshotOnlyEncoding(body: seq<byte>, valid: EndpointId -> bool)
    requires ParseSnapshot(body, valid).Got?
    ensures var r := ParseSnapshot(body, valid);
            && r.value.Snapshot? && |r.value.entries| <= ROSTER_MAX_ENTRIES
            && body == CountBytes(|r.value.entries|) + (EntriesBytes(r.value.entries) + r.rest)
  {
    var count := body[..2];
    CountIsCanonical(count);
    EntriesOnlyEncoding(body[2..], CountOf(count), valid);
  }

  /** The reader accepts nothing but what the encoders write. */
  lemma MsgOnlyEncoding(bytes: seq<byte>, valid: EndpointId -> bool)
    requires ParseMsg(bytes, valid).Got?
    ensures bytes == EncodeMsg(ParseMsg(bytes, valid).value) + ParseMsg(bytes, valid).rest
  {
    var kind, body, r := bytes[4], bytes[5..], ParseMsg(bytes, valid);
    assert bytes == ROSTER_MAGIC + [kind] + body;
    if kind == MSG_SNAPSHOT {
      SnapshotOnlyEncoding(body, valid);
      var es := r.value.entries;
      assert body == CountBytes(|es|) + EntriesBytes(es) + r.rest;
      assert bytes == ROSTER_MAGIC + [kind] + (CountBytes(|es|) + EntriesBytes(es)) + r.rest;
    } else {
      EntryOnlyEncoding(body, valid);
      assert bytes == ROSTER_MAGIC + [kind] + EntryBytes(ReadEntry(body, valid).value) + r.rest;
    }
  }

  function Parser(valid: EndpointId -> bool): seq<byte> -> Read<RosterMsg> {
    bytes => ParseMsg(bytes, valid)
  }

  /** Any messages written one behind the other are read back as the same list, with nothing left over. */
  lemma RosterStreamReadsBack(ms: seq<RosterMsg>, valid: EndpointId -> bool)
    requires forall m :: m in ms ==> AllValid(m, valid)
    ensures ReadAll(Parser(valid), Concat(EncodeMsg, ms)) == Some(Mapped(Sent, ms))
  {
    forall m | m in ms ensures SelfDelimiting(Parser(valid), EncodeMsg, Sent, m) {
      forall tail ensures Parser(valid)(EncodeMsg(m) + tail) == Got(Sent(m), tail) {
        MsgReadsBack(m, tail, valid);
      }
    }
    StreamReadsBack(Parser(valid), EncodeMsg, Sent, ms);
  }

  /** And a stream that can be read to its end is exactly the encoding of what was read. */
  lemma RosterStreamIsItsEncoding(bytes: seq<byte>, valid: EndpointId -> bool)
    requires ReadAll(Parser(valid), bytes).Some?
    ensures Concat(EncodeMsg, ReadAll(Parser(valid), bytes).value) == bytes
  {
    forall b | Parser(valid)(b).Got? ensures b == EncodeMsg(Parser(valid)(b).value) + Parser(valid)(b).rest {
      MsgOnlyEncoding(b, valid);
    }
    StreamIsItsEncoding(Parser(valid), EncodeMsg, bytes);
  }

  // ---------------------------------------------------------------- the visibility hello

  const HELLO_FLAG_HIDDEN: byte := 1

  function EncodeHello(hidden: bool): seq<byte> {
    ROSTER_MAGIC + [MSG_HELLO] + [if hidden then HELLO_FLAG_HIDDEN else 0]
  }

  /** `read_hello`; only the lowest flag bit is looked at. */
  method ReadHello(r: Stream) returns (hidden: Option<bool>)
    modifies r
    ensures match Take(old(r.rest), 6)
            case Got(hdr, rest) =>
              r.rest == rest
              && hidden == (if hdr[..5] == ROSTER_MAGIC + [MSG_HELLO] then Some(hdr[5] % 2 == 1) else None)
            case Bad => hidden == None
  {
    var hdr := r.ReadExact(6);
    if hdr.None? {
      return None;
    }
    assert hdr.value[..5] == hdr.value[..4] + [hdr.value[4]];
    if hdr.value[..4] != ROSTER_MAGIC {
      return None;
    }
    if hdr.value[4] != MSG_HELLO {
      return None;
    }
    hidden := Some(hdr.value[5] % 2 == 1);
  }

  /** A hello on a fresh stream is read back, and what follows it is left in place. */
  method HelloReadsBack(hidden: bool, tail: seq<byte>) returns (back: Option<bool>, rest: seq<byte>)
    ensures back == Some(hidden) && rest == tail
  {
    var r := new Stream(EncodeHello(hidden) + tail);
    TakeFront(EncodeHello(hidden), tail);
    back := ReadHello(r);
    rest := r.rest;
  }

  // ---------------------------------------------------------------- where the bytes stand

  /** An entry is 52 bytes: 4 of the IPv4 address, 16 of the IPv6 address, 32 of the id. */
  lemma EntryLayout(e: RosterEntry)
    ensures |EntryBytes(e)| == 52
    ensures FromBE(EntryBytes(e)[..4]) == e.vips.v4 && FromBE(EntryBytes(e)[4..20]) == e.vips.v6
    ensures FromBE(EntryBytes(e)[20..]) == e.id
  {
    EntryReadsBack(e, id => true);
    assert EntryBytes(e)[20..] == EntryBytes(e)[20..52];
  }

  lemma {:induction false} EntryAt(es: seq<RosterEntry>, i: nat)
    requires i < |es|
    ensures |EntriesBytes(es)| == 52 * |es| && EntriesBytes(es)[52 * i..52 * i + 52] == EntryBytes(es[i])
  {
    LengthOfEntries(es);
    var head, others := EntryBytes(es[0]), EntriesBytes(es[1..]);
    if i > 0 {
      EntryAt(es[1..], i - 1);
      BehindHead(head, others, 52 * (i - 1));
    }
  }

  lemma BehindHead(head: seq<byte>, others: seq<byte>, at: nat)
    requires |head| == 52 && at + 52 <= |others|
    ensures (head + others)[52 + at..52 + at + 52] == others[at..at + 52]
  {
  }

  lemma {:induction false} LengthOfEntries(es: seq<RosterEntry>)
    ensures |EntriesBytes(es)| == 52 * |es|
  {
    if es != [] {
      LengthOfEntries(es[1..]);
    }
  }

  predicate StandsAt(bytes: seq<byte>, at: nat, e: RosterEntry) {
    at + 52 <= |bytes| && bytes[at..at + 52] == EntryBytes(e)
  }

  /**
   * Byte by byte: "LPR3", the type - 1 a snapshot, 2 a Joined, 3 a Left, 4 a hello -, then the entry, or the count in
   * two bytes and the entries, at most 4096 of them, or the flag.
   */
  lemma MsgLayout(m: RosterMsg, hidden: bool)
    ensures EncodeMsg(m)[..4] == [0x4C, 0x50, 0x52, 0x33]
    ensures m.Joined? ==> EncodeMsg(m)[4..] == [2] + EntryBytes(m.entry)
    ensures m.Left? ==> EncodeMsg(m)[4..] == [3] + EntryBytes(m.entry)
    ensures m.Snapshot? ==>
              var n := if |m.entries| < 4096 then |m.entries| else 4096;
              && |EncodeMsg(m)| == 7 + 52 * n && EncodeMsg(m)[4..7] == [1, n / 0x100, n % 0x100]
              && forall i :: 0 <= i < n ==> StandsAt(EncodeMsg(m), 7 + 52 * i, m.entries[i])
    ensures EncodeHello(hidden) == [0x4C, 0x50, 0x52, 0x33, 4, if hidden then 1 else 0]
  {
    if m.Snapshot? {
      var es := Capped(m.entries);
      var head := ROSTER_MAGIC + [MSG_SNAPSHOT] + CountBytes(|es|);
      assert EncodeMsg(m) == head + EntriesBytes(es);
      assert head[4..7] == [1, |es| / 0x100, |es| % 0x100];
      SnapshotLayout(head, es, EncodeMsg(m));
    }
  }

  lemma SnapshotLayout(head: seq<byte>, es: seq<RosterEntry>, bytes: seq<byte>)
    requires |head| == 7 && bytes == head + EntriesBytes(es)
    ensures |bytes| == 7 + 52 * |es|
    ensures forall i :: 0 <= i < |es| ==> StandsAt(bytes, 7 + 52 * i, es[i])
  {
    LengthOfEntries(es);
    forall i | 0 <= i < |es| ensures StandsAt(bytes, 7 + 52 * i, es[i]) {
      EntryAt(es, i);
      BehindSeven(head, EntriesBytes(es), 52 * i, bytes);
    }
  }

  lemma BehindSeven(head: seq<byte>, body: seq<byte>, at: nat, bytes: seq<byte>)
    requires |head| == 7 && at + 52 <= |body| && bytes == head + body
    ensures bytes[7 + at..7 + at + 52] == body[at..at + 52]
  {
  }
}
