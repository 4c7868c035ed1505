/** Length-prefixed frames over a byte stream. */
module Frames {
  import opened Common

  type Byte = x: int | 0 <= x < 256

  const MAX_FRAME_BYTES := 67108864

  /** The serializer, and the parser that undoes it. */
  datatype Codec<!T> = Codec(encode: T -> Result<seq<Byte>>, decode: seq<Byte> -> Result<T>)

  ghost predicate RoundTrips<T(!new)>(c: Codec<T>) {
    forall v :: c.encode(v).Ok? ==> c.decode(c.encode(v).value) == Ok(v)
  }

  // ---- The header ----

  function Le32(n: nat): (r: seq<Byte>)
    requires n < 0x1_0000_0000
    ensures |r| == 4
  {
    [n % 256, n / 256 % 256, n / 65536 % 256, n / 16777216]
  }

  function FromLe32(b: seq<Byte>): (n: nat)
    requires |b| == 4
    ensures n < 0x1_0000_0000
  {
    b[0] as int + 256 * (b[1] as int) + 65536 * (b[2] as int) + 16777216 * (b[3] as int)
  }

  lemma HeaderRoundTrip(n: nat)
    requires n < 0x1_0000_0000
    ensures FromLe32(Le32(n)) == n
  {
    assert n / 65536 == n / 256 / 256 && n / 16777216 == n / 256 / 256 / 256;
  }

  /** Least significant byte first. */
  lemma LittleEndian()
    ensures Le32(1) == [1, 0, 0, 0] && Le32(256) == [0, 1, 0, 0]
    ensures Le32(65536) == [0, 0, 1, 0] && Le32(16777216) == [0, 0, 0, 1]
  {
  }

  lemma LastDigit(d: nat, rest: nat)
    requires d < 256
    ensures (d + 256 * rest) % 256 == d && (d + 256 * rest) / 256 == rest
  {
  }

  /** Every header of four bytes is that of exactly one length. */
  lemma HeaderIsUnique(b: seq<Byte>)
    requires |b| == 4
    ensures Le32(FromLe32(b)) == b
  {
    var x, y, z, w: nat := b[0], b[1], b[2], b[3];
    var n := FromLe32(b);
    var n1 := y + 256 * (z + 256 * w);
    assert n == x + 256 * n1;
    LastDigit(x, n1);
    LastDigit(y, z + 256 * w);
    LastDigit(z, w);
    assert n / 65536 == n / 256 / 256 && n / 16777216 == n / 256 / 256 / 256;
    assert Le32(n) == [x, y, z, w];
    assert b == [b[0], b[1], b[2], b[3]];
  }

  // ---- Reading and writing as functions of the unread bytes ----

  /** A value that write_frame accepts. */
  predicate Fits<T>(c: Codec<T>, v: T) {
    c.encode(v).Ok? && |c.encode(v).value| <= MAX_FRAME_BYTES
  }

  function Frame<T>(c: Codec<T>, v: T): (r: seq<Byte>)
    requires Fits(c, v)
    ensures |r| == 4 + |c.encode(v).value|
  {
    Le32(|c.encode(v).value|) + c.encode(v).value
  }

  /** A value is refused exactly when it cannot be encoded or takes more than
      64 MiB. */
  lemma FitsExactly<T>(c: Codec<T>, v: T)
    ensures Fits(c, v) <==> c.encode(v).Ok? && |c.encode(v).value| <= 64 * 1024 * 1024
  {
  }

  /** A frame of up to 64 MiB that is all there is read: its payload goes to the
      parser and what follows it is left. */
  lemma ReadExactly<T>(c: Codec<T>, header: seq<Byte>, payload: seq<Byte>, tail: seq<Byte>)
    requires |payload| <= 64 * 1024 * 1024 && header == Le32(|payload|)
    ensures ReadOne(c, header + payload + tail) == ReadResult(c.decode(payload), tail)
  {
    var bytes := header + payload + tail;
    HeaderRoundTrip(|payload|);
    assert bytes[..4] == header;
    assert bytes[4..4 + |payload|] == payload;
    assert bytes[4 + |payload|..] == tail;
  }

  /** What a read returns and what it leaves unread. */
  datatype ReadResult<T> = ReadResult(result: Result<T>, rest: seq<Byte>)

  function ReadOne<T>(c: Codec<T>, bytes: seq<Byte>): (r: ReadResult<T>)
    ensures r.result.Ok? ==> 4 <= |bytes| && FromLe32(bytes[..4]) <= MAX_FRAME_BYTES
                             && 4 + FromLe32(bytes[..4]) <= |bytes| && r.rest == bytes[4 + FromLe32(bytes[..4])..]
    ensures |bytes| >= 4 && FromLe32(bytes[..4]) > 64 * 1024 * 1024 ==> r.result.Err? && r.rest == bytes[4..]
    ensures |bytes| >= 4 && |bytes| < 4 + FromLe32(bytes[..4]) ==> r.result.Err?
  {
    if |bytes| < 4 then ReadResult(Err("unexpected end of file"), [])
    else
      var len := FromLe32(bytes[..4]);
      if len > MAX_FRAME_BYTES then ReadResult(Err("frame too large"), bytes[4..])
      else if |bytes| < 4 + len then ReadResult(Err("unexpected end of file"), [])
      else ReadResult(c.decode(bytes[4..4 + len]), bytes[4 + len..])
  }

  /** A byte stream: the bytes written and not yet read. */
  class Stream {
    var unread: seq<Byte>

    constructor ()
      ensures unread == []
    {
      unread := [];
    }

    method WriteAll(b: seq<Byte>)
      modifies this
      ensures unread == old(unread) + b
    {
      unread := unread + b;
    }

    /** Take exactly n bytes; at end of file whatever was left is lost. */
    method ReadExact(n: nat) returns (r: Result<seq<Byte>>)
      modifies this
      ensures r.Ok? <==> |old(unread)| >= n
      ensures r.Ok? ==> r.value == old(unread)[..n] && unread == old(unread)[n..]
      ensures r.Err? ==> unread == []
    {
      if |unread| < n {
        unread := [];
        return Err("unexpected end of file");
      }
      r := Ok(unread[..n]);
      unread := unread[n..];
    }
  }

  method WriteFrame<T>(stream: Stream, c: Codec<T>, v: T) returns (r: Result<()>)
    modifies stream
    ensures r.Ok? <==> Fits(c, v)
    ensures stream.unread == old(stream.unread) + if Fits(c, v) then Frame(c, v) else []
  {
    var encoded := c.encode(v);
    if encoded.Err? { return Err(encoded.message); }
    if |encoded.value| > MAX_FRAME_BYTES { return Err("frame too large"); }
    stream.WriteAll(Le32(|encoded.value|));
    stream.WriteAll(encoded.value);
    return Ok(());
  }

  method ReadFrame<T>(stream: Stream, c: Codec<T>) returns (r: Result<T>)
    modifies stream
    ensures ReadResult(r, stream.unread) == ReadOne(c, old(stream.unread))
  {
    ghost var bytes := stream.unread;
    var header := stream.ReadExact(4);
    if header.Err? { return Err("unexpected end of file"); }
    var len := FromLe32(header.value);
    if len > MAX_FRAME_BYTES { return Err("frame too large"); }
    var payload := stream.ReadExact(len);
    if payload.Err? { return Err("unexpected end of file"); }
    assert bytes[4..][..len] == bytes[4..4 + len] && bytes[4..][len..] == bytes[4 + len..];
    return c.decode(payload.value);
  }

  // ---- Streams of frames ----

  ghost predicate AllFit<T>(c: Codec<T>, vs: seq<T>) {
    forall i :: 0 <= i < |vs| ==> Fits(c, vs[i])
  }

  ghost function Written<T>(c: Codec<T>, vs: seq<T>): seq<Byte>
    requires AllFit(c, vs)
  {
    if vs == [] then [] else Frame(c, vs[0]) + Written(c, vs[1..])
  }

  /** The values of n reads in a row and what they leave; an error ends it. */
  ghost function ReadMany<T>(c: Codec<T>, bytes: seq<Byte>, n: nat): ReadResult<seq<T>>
    decreases n
  {
    if n == 0 then ReadResult(Ok([]), bytes)
    else
      var first := ReadOne(c, bytes);
      if first.result.Err? then ReadResult(Err(first.result.message), first.rest)
      else
        var more := ReadMany(c, first.rest, n - 1);
        if more.result.Err? then more else ReadResult(Ok([first.result.value] + more.result.value), more.rest)
  }

  /** Reading a frame gives back the value and consumes exactly the frame. */
  lemma FrameRoundTrip<T(!new)>(c: Codec<T>, v: T, tail: seq<Byte>)
    requires RoundTrips(c) && Fits(c, v)
    ensures ReadOne(c, Frame(c, v) + tail) == ReadResult(Ok(v), tail)
  {
    var payload := c.encode(v).value;
    var bytes := Frame(c, v) + tail;
    HeaderRoundTrip(|payload|);
    assert bytes[..4] == Le32(|payload|);
    assert bytes[4..4 + |payload|] == payload;
    assert bytes[4 + |payload|..] == tail;
  }

  lemma ReadNext<T>(c: Codec<T>, bytes: seq<Byte>, v: T, rest: seq<Byte>, vs: seq<T>, tail: seq<Byte>)
    requires ReadOne(c, bytes) == ReadResult(Ok(v), rest)
    requires ReadMany(c, rest, |vs|) == ReadResult(Ok(vs), tail)
    ensures ReadMany(c, bytes, |vs| + 1) == ReadResult(Ok([v] + vs), tail)
  {
  }

  lemma FirstOfStream<T(!new)>(c: Codec<T>, v: T, written: seq<Byte>, tail: seq<Byte>)
    requires RoundTrips(c) && Fits(c, v)
    ensures ReadOne(c, Frame(c, v) + written + tail) == ReadResult(Ok(v), written + tail)
  {
    assert Frame(c, v) + written + tail == Frame(c, v) + (written + tail);
    FrameRoundTrip(c, v, written + tail);
  }

  /** Reading back a stream of frames gives the same list, whatever follows it. */
  lemma {:induction false} StreamRoundTrip<T(!new)>(c: Codec<T>, vs: seq<T>, tail: seq<Byte>)
    requires RoundTrips(c) && AllFit(c, vs)
    ensures ReadMany(c, Written(c, vs) + tail, |vs|) == ReadResult(Ok(vs), tail)
  {
    if vs == [] {
      assert Written(c, vs) + tail == tail;
    } else {
      var v, more := vs[0], vs[1..];
      var written := Written(c, more);
      FirstOfStream(c, v, written, tail);
      StreamRoundTrip(c, more, tail);
      ReadNext(c, Frame(c, v) + written + tail, v, written + tail, more, tail);
      assert vs == [v] + more;
    }
  }

  /** A frame cut short never reads as a value. */
  lemma TruncatedFrameFails<T>(c: Codec<T>, v: T, n: nat)
    requires Fits(c, v) && n < |Frame(c, v)|
    ensures ReadOne(c, Frame(c, v)[..n]).result.Err?
  {
    var payload := c.encode(v).value;
    HeaderRoundTrip(|payload|);
    if n >= 4 {
      assert Frame(c, v)[..n][..4] == Le32(|payload|);
    }
  }
}
