/** Streams of self-delimiting values, as the wire readers see them. */
module ByteStream {
  import opened Net

  /** The outcome of reading one value from the front of some bytes. */
  datatype Read<+T> = Got(value: T, rest: seq<byte>) | Bad

  /** The n bytes at the front. */
  function Take(bytes: seq<byte>, n: nat): Read<seq<byte>> {
    if n <= |bytes| then Got(bytes[..n], bytes[n..]) else Bad
  }

  lemma TakeFront(a: seq<byte>, b: seq<byte>)
    ensures Take(a + b, |a|) == Got(a, b)
  {
  }

  class Stream {
    var rest: seq<byte>

    constructor (bytes: seq<byte>)
      ensures rest == bytes
    {
      rest := bytes;
    }

    /** `read_exact`: at the end of the stream it fails and has used up what was left. */
    method ReadExact(n: nat) returns (r: Option<seq<byte>>)
      modifies this
      ensures match Take(old(rest), n)
              case Got(bytes, left) => r == Some(bytes) && rest == left
              case Bad => r == None && rest == []
    {
      if n <= |rest| {
        r := Some(rest[..n]);
        rest := rest[n..];
      } else {
        r := None;
        rest := [];
      }
    }
  }

  // ---------------------------------------------------------------- many values behind each other

  function Concat<T>(encode: T -> seq<byte>, vs: seq<T>): seq<byte> {
    if vs == [] then [] else encode(vs[0]) + Concat(encode, vs[1..])
  }

  function Mapped<T>(f: T -> T, vs: seq<T>): seq<T> {
    if vs == [] then [] else [f(vs[0])] + Mapped(f, vs[1..])
  }

  /** Reading one value after the other until nothing is left; None when that gets stuck. */
  function ReadAll<T>(parse: seq<byte> -> Read<T>, bytes: seq<byte>): Option<seq<T>>
    decreases |bytes|
  {
    if bytes == [] then Some([])
    else
      var first := parse(bytes);
      if first.Bad? || |first.rest| >= |bytes| then None
      else
        var others := ReadAll(parse, first.rest);
        if others.None? then None else Some([first.value] + others.value)
  }

  /** Whatever follows v's encoding, the reader finds v - as it is sent - and stops right behind it. */
  ghost predicate SelfDelimiting<T(!new)>(parse: seq<byte> -> Read<T>, encode: T -> seq<byte>, sent: T -> T, v: T) {
    encode(v) != [] && forall tail :: parse(encode(v) + tail) == Got(sent(v), tail)
  }

  /** What the reader accepts is nothing but the encoding of what it returns. */
  ghost predicate OnlyEncodings<T(!new)>(parse: seq<byte> -> Read<T>, encode: T -> seq<byte>) {
    forall bytes :: parse(bytes).Got? ==> bytes == encode(parse(bytes).value) + parse(bytes).rest
  }

  lemma {:induction false} StreamReadsBack<T(!new)>(
      parse: seq<byte> -> Read<T>, encode: T -> seq<byte>, sent: T -> T, vs: seq<T>)
    requires forall v :: v in vs ==> SelfDelimiting(parse, encode, sent, v)
    ensures ReadAll(parse, Concat(encode, vs)) == Some(Mapped(sent, vs))
  {
    if vs != [] {
      assert SelfDelimiting(parse, encode, sent, vs[0]);
      StreamReadsBack(parse, encode, sent, vs[1..]);
    }
  }

  lemma {:induction false} StreamIsItsEncoding<T(!new)>(
      parse: seq<byte> -> Read<T>, encode: T -> seq<byte>, bytes: seq<byte>)
    requires OnlyEncodings(parse, encode) && ReadAll(parse, bytes).Some?
    ensures Concat(encode, ReadAll(parse, bytes).value) == bytes
    decreases |bytes|
  {
    if bytes != [] {
      StreamIsItsEncoding(parse, encode, parse(bytes).rest);
    }
  }
}
