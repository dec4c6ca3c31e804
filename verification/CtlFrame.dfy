/** Frames of the daemon's control socket (src/tun_ctl.rs). The JSON in their bodies is not part of this model. */
module CtlFrame {
  import opened Net
  import opened ByteStream

  const CTL_MAGIC: seq<byte> := [0x4C, 0x50, 0x43, 0x31]
  const CTL_VERSION: byte := 2
  const MIN_SUPPORTED_VERSION: byte := 2
  const CTL_MAX_BODY := 1024 * 1024
  const HEADER_LEN := 9

  datatype Frame = Frame(version: byte, body: seq<byte>)

  datatype FrameError = Truncated | BadMagic | TooLarge | TooOld(version: byte) | TooNew(version: byte) | Outdated(version: byte)

  datatype Result<+T> = Ok(value: T) | Err(error: FrameError)

  function LenOf(b: seq<byte>): u32
    requires |b| == 4
  {
    PowersOf256();
    FromBE(b)
  }

  lemma LenReadsBack(n: u32)
    ensures LenOf(BE4(n)) == n
  {
    PowersOf256();
    FromBEofBE(4, n);
  }

  lemma LenIsCanonical(b: seq<byte>)
    requires |b| == 4
    ensures BE4(LenOf(b)) == b
  {
    PowersOf256();
    BEofFromBE(b);
  }

  function HeaderBytes(version: byte, len: u32): (b: seq<byte>)
    ensures |b| == HEADER_LEN
  {
    CTL_MAGIC + [version] + BE4(len)
  }

  /** The bytes of a frame, if its body is not too large. */
  function FrameBytes(f: Frame): Option<seq<byte>> {
    if |f.body| > CTL_MAX_BODY then None else Some(HeaderBytes(f.version, |f.body|) + f.body)
  }

  method EncodeFrame(version: byte, body: seq<byte>) returns (r: Result<seq<byte>>)
    ensures match FrameBytes(Frame(version, body))
            case Some(bytes) => r == Ok(bytes)
            case None => r == Err(TooLarge)
  {
    if |body| >= 0x1_0000_0000 {
      return Err(TooLarge);
    }
    var len: u32 := |body|;
    if len > CTL_MAX_BODY {
      return Err(TooLarge);
    }
    var out := CTL_MAGIC;
    out := out + [version];
    out := out + BE4(len);
    out := out + body;
    r := Ok(out);
  }

  datatype Header = Header(version: byte, len: u32)

  function ParseHeader(hdr: seq<byte>): Result<Header>
    requires |hdr| == HEADER_LEN
  {
    if hdr[..4] != CTL_MAGIC then Err(BadMagic)
    else if LenOf(hdr[5..]) > CTL_MAX_BODY then Err(TooLarge)
    else Ok(Header(hdr[4], LenOf(hdr[5..])))
  }

  function CheckVersion(version: byte): Option<FrameError> {
    if version == CTL_VERSION then None
    else if version < MIN_SUPPORTED_VERSION then Some(TooOld(version))
    else if version > CTL_VERSION then Some(TooNew(version))
    else Some(Outdated(version))
  }

  // ---------------------------------------------------------------- the two readers

  datatype FrameRead = Whole(frame: Frame, rest: seq<byte>) | Failed(error: FrameError)

  function FrameOf(bytes: seq<byte>): FrameRead {
    if |bytes| < HEADER_LEN then Failed(Truncated)
    else
      var h := ParseHeader(bytes[..HEADER_LEN]);
      if h.Err? then Failed(h.error)
      else
        var body := Take(bytes[HEADER_LEN..], h.value.len);
        if body.Bad? then Failed(Truncated) else Whole(Frame(h.value.version, body.value), body.rest)
  }

  /** `read_frame`. */
  method ReadFrame(r: Stream) returns (f: Result<Frame>)
    modifies r
    ensures match FrameOf(old(r.rest))
            case Whole(frame, rest) => f == Ok(frame) && r.rest == rest
            case Failed(error) => f == Err(error)
  {
    var hdr := r.ReadExact(HEADER_LEN);
    if hdr.None? {
      return Err(Truncated);
    }
    var h := ParseHeader(hdr.value);
    if h.Err? {
      return Err(h.error);
    }
    var body: seq<byte> := [];
    if h.value.len > 0 {
      var b := r.ReadExact(h.value.len);
      if b.None? {
        return Err(Truncated);
      }
      body := b.value;
    }
    f := Ok(Frame(h.value.version, body));
  }

  /** What `read_request` and `read_response` hand to the JSON decoder. */
  function StreamBody(bytes: seq<byte>): Result<seq<byte>> {
    match FrameOf(bytes)
    case Failed(error) => Err(error)
    case Whole(frame, _) =>
      if CheckVersion(frame.version).Some? then Err(CheckVersion(frame.version).value) else Ok(frame.body)
  }

  /** What `decode_request_frame` and `decode_response_frame` hand to it from a buffer. */
  method DecodeFrame(frame: seq<byte>) returns (r: Result<seq<byte>>)
    ensures r == BufferBody(frame)
    ensures forall body :: r == Ok(body) <==> StartsWithFrame(frame, body)
  {
    forall body ensures BufferBody(frame) == Ok(body) <==> StartsWithFrame(frame, body) {
      BufferBodyExactly(frame, body);
    }
    if |frame| < HEADER_LEN {
      return Err(Truncated);
    }
    var h := ParseHeader(frame[..HEADER_LEN]);
    if h.Err? {
      return Err(h.error);
    }
    var bad := CheckVersion(h.value.version);
    if bad.Some? {
      return Err(bad.value);
    }
    if HEADER_LEN + h.value.len > |frame| {
      return Err(Truncated);
    }
    r := Ok(frame[HEADER_LEN..HEADER_LEN + h.value.len]);
  }

  function BufferBody(frame: seq<byte>): Result<seq<byte>> {
    if |frame| < HEADER_LEN then Err(Truncated)
    else
      var h := ParseHeader(frame[..HEADER_LEN]);
      if h.Err? then Err(h.error)
      else if CheckVersion(h.value.version).Some? then Err(CheckVersion(h.value.version).value)
      else if HEADER_LEN + h.value.len > |frame| then Err(Truncated)
      else Ok(frame[HEADER_LEN..HEADER_LEN + h.value.len])
  }

  /** The buffer starts with a frame of our version around this body. */
  ghost predicate StartsWithFrame(buf: seq<byte>, body: seq<byte>) {
    |body| <= CTL_MAX_BODY && HeaderBytes(CTL_VERSION, |body|) + body <= buf
  }

  /** The buffer reader accepts a body exactly when the buffer starts with a frame of our version around it. */
  lemma BufferBodyExactly(buf: seq<byte>, body: seq<byte>)
    ensures BufferBody(buf) == Ok(body) <==> StartsWithFrame(buf, body)
  {
    if BufferBody(buf) == Ok(body) {
      HeaderIsCanonical(buf[..HEADER_LEN]);
      assert buf == buf[..HEADER_LEN] + body + buf[HEADER_LEN + |body|..];
    }
    if StartsWithFrame(buf, body) {
      HeaderReadsBack(CTL_VERSION, |body|);
      assert buf[..HEADER_LEN] == HeaderBytes(CTL_VERSION, |body|);
      assert buf[HEADER_LEN..HEADER_LEN + |body|] == body;
    }
  }

  /** A whole header of another protocol version in front of a body that is cut short. */
  predicate CutForeignFrame(bytes: seq<byte>) {
    && |bytes| >= HEADER_LEN && ParseHeader(bytes[..HEADER_LEN]).Ok?
    && bytes[4] != CTL_VERSION && HEADER_LEN + ParseHeader(bytes[..HEADER_LEN]).value.len > |bytes|
  }

  /**
   * The two readers accept the same bytes with the same body, and report the same error but for one
   * case: a cut frame of another version is truncated to one and a version mismatch to the other.
   */
  lemma ReadersAgree(bytes: seq<byte>)
    ensures StreamBody(bytes).Ok? == BufferBody(bytes).Ok?
    ensures StreamBody(bytes) == BufferBody(bytes) <==> !CutForeignFrame(bytes)
  {
    if |bytes| >= HEADER_LEN && ParseHeader(bytes[..HEADER_LEN]).Ok? {
      var len := ParseHeader(bytes[..HEADER_LEN]).value.len;
      if HEADER_LEN + len <= |bytes| {
        assert bytes[HEADER_LEN..][..len] == bytes[HEADER_LEN..HEADER_LEN + len];
      }
    }
  }

  // ---------------------------------------------------------------- round trip

  function ParseFrame(bytes: seq<byte>): Read<Frame> {
    match FrameOf(bytes)
    case Whole(frame, rest) => Got(frame, rest)
    case Failed(_) => Bad
  }

  /** The bytes of a frame that may be sent. */
  function SendBytes(f: Frame): seq<byte> {
    if FrameBytes(f).Some? then FrameBytes(f).value else []
  }

  lemma HeaderReadsBack(version: byte, len: u32)
    requires len <= CTL_MAX_BODY
    ensures ParseHeader(HeaderBytes(version, len)) == Ok(Header(version, len))
  {
    LenReadsBack(len);
    assert HeaderBytes(version, len)[5..] == BE4(len);
  }

  lemma FrameReadsBack(f: Frame, tail: seq<byte>)
    requires |f.body| <= CTL_MAX_BODY
    ensures ParseFrame(SendBytes(f) + tail) == Got(f, tail)
  {
    var hdr := HeaderBytes(f.version, |f.body|);
    var bytes := SendBytes(f) + tail;
    assert bytes == hdr + (f.body + tail);
    assert bytes[..HEADER_LEN] == hdr && bytes[HEADER_LEN..] == f.body + tail;
    HeaderReadsBack(f.version, |f.body|);
    TakeFront(f.body, tail);
  }

  lemma HeaderIsCanonical(hdr: seq<byte>)
    requires |hdr| == HEADER_LEN && ParseHeader(hdr).Ok?
    ensures HeaderBytes(ParseHeader(hdr).value.version, ParseHeader(hdr).value.len) == hdr
  {
    LenIsCanonical(hdr[5..]);
    assert hdr == hdr[..4] + [hdr[4]] + hdr[5..];
  }

  lemma FrameOnlyEncoding(bytes: seq<byte>)
    requires ParseFrame(bytes).Got?
    ensures bytes == SendBytes(ParseFrame(bytes).value) + ParseFrame(bytes).rest
  {
    var hdr, more, f := bytes[..HEADER_LEN], bytes[HEADER_LEN..], ParseFrame(bytes);
    HeaderIsCanonical(hdr);
    assert more == f.value.body + f.rest && |f.value.body| == ParseHeader(hdr).value.len;
    assert bytes == hdr + (f.value.body + f.rest);
  }

  /** Any frames written one behind the other are read back as the same list, with nothing left over. */
  lemma CtlStreamReadsBack(fs: seq<Frame>)
    requires forall f :: f in fs ==> |f.body| <= CTL_MAX_BODY
    ensures ReadAll(ParseFrame, Concat(SendBytes, fs)) == Some(Mapped((f: Frame) => f, fs))
  {
    var same := (f: Frame) => f;
    forall f | f in fs ensures SelfDelimiting(ParseFrame, SendBytes, same, f) {
      forall tail ensures ParseFrame(SendBytes(f) + tail) == Got(f, tail) {
        FrameReadsBack(f, tail);
      }
    }
    StreamReadsBack(ParseFrame, SendBytes, same, fs);
  }

  lemma CtlStreamIsItsEncoding(bytes: seq<byte>)
    requires ReadAll(ParseFrame, bytes).Some?
    ensures Concat(SendBytes, ReadAll(ParseFrame, bytes).value) == bytes
  {
    forall b | ParseFrame(b).Got? ensures b == SendBytes(ParseFrame(b).value) + ParseFrame(b).rest {
      FrameOnlyEncoding(b);
    }
    StreamIsItsEncoding(ParseFrame, SendBytes, bytes);
  }

  // ---------------------------------------------------------------- the bytes and every error

  /** "LPC1", the version, the body's length in four bytes, the body; bodies over 1 MiB have no frame. */
  lemma FrameLayout(f: Frame)
    ensures FrameBytes(f) == if |f.body| > 1_048_576 then None
                             else Some([0x4C, 0x50, 0x43, 0x31, f.version] + BE4(|f.body|) + f.body)
  {
    assert CTL_MAGIC + [f.version] == [0x4C, 0x50, 0x43, 0x31, f.version];
  }

  /** The buffer starts with a header: our magic and an announced length of at most 1 MiB. */
  predicate HasHeader(buf: seq<byte>) {
    |buf| >= 9 && buf[..4] == [0x4C, 0x50, 0x43, 0x31] && FromBE(buf[5..9]) <= 1_048_576
  }

  /** Which error the buffer reader reports, for every buffer: the first of these that applies. */
  lemma BufferErrorsExactly(buf: seq<byte>)
    ensures BufferBody(buf) == Err(BadMagic) <==> |buf| >= 9 && buf[..4] != [0x4C, 0x50, 0x43, 0x31]
    ensures BufferBody(buf) == Err(TooLarge) <==>
              |buf| >= 9 && buf[..4] == [0x4C, 0x50, 0x43, 0x31] && FromBE(buf[5..9]) > 1_048_576
    ensures forall v :: BufferBody(buf) == Err(TooOld(v)) <==> HasHeader(buf) && v == buf[4] < 2
    ensures forall v :: BufferBody(buf) == Err(TooNew(v)) <==> HasHeader(buf) && v == buf[4] > 2
    ensures forall v :: BufferBody(buf) != Err(Outdated(v))
    ensures BufferBody(buf) == Err(Truncated) <==>
              |buf| < 9 || (HasHeader(buf) && buf[4] == 2 && 9 + FromBE(buf[5..9]) > |buf|)
  {
    HeaderSlices(buf);
  }

  lemma HeaderSlices(buf: seq<byte>)
    ensures |buf| >= 9 ==> buf[..9][..4] == buf[..4] && buf[..9][5..] == buf[5..9] && buf[..9][4] == buf[4]
  {
  }

  /** And the stream reader, which looks at the version last. */
  lemma StreamErrorsExactly(bytes: seq<byte>)
    ensures StreamBody(bytes) == Err(BadMagic) <==> |bytes| >= 9 && bytes[..4] != [0x4C, 0x50, 0x43, 0x31]
    ensures StreamBody(bytes) == Err(TooLarge) <==>
              |bytes| >= 9 && bytes[..4] == [0x4C, 0x50, 0x43, 0x31] && FromBE(bytes[5..9]) > 1_048_576
    ensures StreamBody(bytes) == Err(Truncated) <==> |bytes| < 9 || (HasHeader(bytes) && 9 + FromBE(bytes[5..9]) > |bytes|)
    ensures forall v :: StreamBody(bytes) == Err(TooOld(v)) <==>
                          HasHeader(bytes) && 9 + FromBE(bytes[5..9]) <= |bytes| && v == bytes[4] < 2
    ensures forall v :: StreamBody(bytes) == Err(TooNew(v)) <==>
                          HasHeader(bytes) && 9 + FromBE(bytes[5..9]) <= |bytes| && v == bytes[4] > 2
    ensures forall v :: StreamBody(bytes) != Err(Outdated(v))
  {
    HeaderSlices(bytes);
  }
}
