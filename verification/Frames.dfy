/** Length-prefixed frames (util/frame.go): the encoding, its parser, and the reading and writing loops. */
module Frames {
  import opened Bytes

  /** `MaxFrameSize`, 16 MiB. */
  const MAX_FRAME := 0x100_0000

  const UINT32 := 0x1_0000_0000

  // ----- big-endian 32-bit numbers

  function Be32(n: nat): (h: bytes)
    requires n < UINT32
    ensures |h| == 4
  {
    [n / 0x100_0000, n / 0x1_0000 % 256, n / 256 % 256, n % 256]
  }

  function FromBe32(h: bytes): (n: nat)
    requires |h| == 4
    ensures n < UINT32
  {
    (h[0] as int) * 0x100_0000 + (h[1] as int) * 0x1_0000 + (h[2] as int) * 256 + h[3]
  }

  lemma Be32Reads(n: nat)
    requires n < UINT32
    ensures FromBe32(Be32(n)) == n
  {
    assert n / 0x1_0000 == n / 0x100_0000 * 256 + n / 0x1_0000 % 256;
    assert n / 256 == n / 0x1_0000 * 256 + n / 256 % 256;
  }

  lemma Be32Unique(h: bytes)
    requires |h| == 4
    ensures Be32(FromBe32(h)) == h
  {
    var n := FromBe32(h);
    assert n / 256 == (h[0] as int) * 0x1_0000 + (h[1] as int) * 256 + h[2];
    assert n / 0x1_0000 == (h[0] as int) * 256 + h[1];
    assert n / 0x100_0000 == h[0];
  }

  // ----- one frame

  /** What `WriteFrame` puts on the stream. The length is truncated to 32 bits and not checked otherwise. */
  function Framed(data: bytes): bytes {
    Be32(|data| % UINT32) + data
  }

  datatype Reading =
    | Payload(data: bytes, rest: bytes)
    | CleanEof
    | ShortHeader
    | TooLarge(size: nat)
    | ShortPayload

  /** `ReadFrame` on everything that will ever arrive. `CleanEof` is the bare `io.EOF`. */
  function Parse(stream: bytes): Reading {
    if stream == [] then CleanEof
    else if |stream| < 4 then ShortHeader
    else
      var n := FromBe32(stream[..4]);
      if n > MAX_FRAME then TooLarge(n)
      else if |stream| < 4 + n then ShortPayload
      else Payload(stream[4..4 + n], stream[4 + n..])
  }

  /** A frame reads back exactly if it is within the limit: larger ones are refused or mis-framed. */
  lemma ReadsBack(data: bytes, rest: bytes)
    ensures Parse(Framed(data) + rest) == Payload(data, rest) <==> |data| <= 16 * 1024 * 1024
  {
    hide Be32, FromBe32;
    var n := |data| % UINT32;
    var stream := Framed(data) + rest;
    Be32Reads(n);
    assert stream[..4] == Be32(n);
    if |data| <= MAX_FRAME {
      assert n == |data|;
      assert stream[4..4 + n] == data;
      assert stream[4 + n..] == rest;
    }
  }

  /** What is read was framed: the parser accepts no second spelling of a frame. */
  lemma ParseIsFraming(stream: bytes)
    requires Parse(stream).Payload?
    ensures var r := Parse(stream);
            |r.data| <= MAX_FRAME && stream == Framed(r.data) + r.rest
  {
    hide Be32, FromBe32;
    var r := Parse(stream);
    Be32Unique(stream[..4]);
    assert stream == stream[..4] + r.data + r.rest;
  }

  // ----- sequences of frames

  predicate Fit(ps: seq<bytes>) {
    forall i | 0 <= i < |ps| :: |ps[i]| <= MAX_FRAME
  }

  function FrameAll(ps: seq<bytes>): bytes {
    if ps == [] then [] else Framed(ps[0]) + FrameAll(ps[1..])
  }

  datatype Script = Script(frames: seq<bytes>, end: Reading)

  /** Repeated `ReadFrame` until it fails. */
  function ParseAll(stream: bytes): Script
    decreases |stream|
  {
    match Parse(stream)
    case Payload(data, rest) =>
      var more := ParseAll(rest);
      Script([data] + more.frames, more.end)
    case failure => Script([], failure)
  }

  /** Frames come back in order, whatever follows them. */
  lemma {:induction false} AllReadBack(ps: seq<bytes>, tail: bytes)
    requires Fit(ps)
    ensures ParseAll(FrameAll(ps) + tail) == Script(ps + ParseAll(tail).frames, ParseAll(tail).end)
  {
    hide Parse, Framed;
    if ps == [] {
      assert FrameAll(ps) + tail == tail;
      assert ps + ParseAll(tail).frames == ParseAll(tail).frames;
    } else {
      assert FrameAll(ps) + tail == Framed(ps[0]) + (FrameAll(ps[1..]) + tail);
      ReadsBack(ps[0], FrameAll(ps[1..]) + tail);
      AllReadBack(ps[1..], tail);
      assert [ps[0]] + (ps[1..] + ParseAll(tail).frames) == ps + ParseAll(tail).frames;
    }
  }

  /** Different lists of frames never share an encoding. */
  lemma EncodingIsInjective(ps: seq<bytes>, qs: seq<bytes>)
    requires Fit(ps) && Fit(qs) && FrameAll(ps) == FrameAll(qs)
    ensures ps == qs
  {
    AllReadBack(ps, []);
    AllReadBack(qs, []);
    assert FrameAll(ps) + [] == FrameAll(ps) && FrameAll(qs) + [] == FrameAll(qs);
    assert ps + [] == ps && qs + [] == qs;
  }

  /** A stream is the encoding of the frames read from it plus a rest that is no frame. */
  lemma {:induction false} ReadingAccountsForAll(stream: bytes) returns (left: bytes)
    ensures var r := ParseAll(stream);
            && Fit(r.frames) && stream == FrameAll(r.frames) + left
            && r.end == Parse(left) && !r.end.Payload?
    decreases |stream|
  {
    if Parse(stream).Payload? {
      ParseIsFraming(stream);
      var data, rest := Parse(stream).data, Parse(stream).rest;
      left := ReadingAccountsForAll(rest);
      var frames := ParseAll(rest).frames;
      assert ([data] + frames)[1..] == frames;
    } else {
      left := stream;
    }
  }

  /** The bare `io.EOF` ends a stream exactly if the stream stops on a frame boundary. */
  lemma CleanEofIsBoundary(stream: bytes)
    ensures ParseAll(stream).end.CleanEof? <==> exists ps :: Fit(ps) && FrameAll(ps) == stream
  {
    if ParseAll(stream).end.CleanEof? {
      var left := ReadingAccountsForAll(stream);
      assert FrameAll(ParseAll(stream).frames) == stream;
    }
    if ps :| Fit(ps) && FrameAll(ps) == stream {
      AllReadBack(ps, []);
      assert FrameAll(ps) + [] == stream;
    }
  }

  // ----- the loops

  function Join(chunks: seq<bytes>): bytes {
    if chunks == [] then [] else chunks[0] + Join(chunks[1..])
  }

  /** A connection being read: the bytes arrive in chunks that the reader does not choose. */
  class Source {
    var chunks: seq<bytes>

    constructor (chunks: seq<bytes>)
      ensures this.chunks == chunks
    {
      this.chunks := chunks;
    }

    ghost function Ahead(): bytes
      reads this
    {
      Join(chunks)
    }

    /** `Read` with room for `room` bytes: at most one chunk, possibly none of it, `io.EOF` only at the end. */
    method Read(room: nat) returns (got: bytes, eof: bool)
      modifies this
      ensures |got| <= room
      ensures eof ==> got == [] && old(Ahead()) == []
      ensures old(Ahead()) == got + Ahead()
      ensures !eof ==> |chunks| < |old(chunks)| || (|chunks| == |old(chunks)| && |got| == room)
    {
      if chunks == [] {
        return [], true;
      }
      eof := false;
      if |chunks[0]| <= room {
        got := chunks[0];
        chunks := chunks[1..];
      } else {
        got := chunks[0][..room];
        var left := chunks[0][room..];
        assert chunks[0] == got + left;
        chunks := [left] + chunks[1..];
        assert old(Ahead()) == got + (left + Join(chunks[1..]));
      }
    }

    /** `io.ReadFull`: loops over short reads. */
    method ReadFull(n: nat) returns (buf: bytes)
      modifies this
      ensures old(Ahead()) == buf + Ahead()
      ensures |buf| == n || (|buf| < n && Ahead() == [])
    {
      buf := [];
      while |buf| < n
        invariant |buf| <= n
        invariant old(Ahead()) == buf + Ahead()
        decreases |chunks|, n - |buf|
      {
        var got, eof := Read(n - |buf|);
        assert old(Ahead()) == (buf + got) + Ahead();
        if eof {
          return;
        }
        buf := buf + got;
      }
    }

    method ReadFrame() returns (ok: bool, data: bytes, why: Reading)
      modifies this
      ensures ok <==> Parse(old(Ahead())).Payload?
      ensures ok ==> Parse(old(Ahead())) == Payload(data, Ahead())
      ensures !ok ==> why == Parse(old(Ahead()))
    {
      ghost var stream := Ahead();
      var header := ReadFull(4);
      if |header| < 4 {
        assert stream == header;
        return false, [], if header == [] then CleanEof else ShortHeader;
      }
      assert stream[..4] == header;
      var n := FromBe32(header);
      if n > MAX_FRAME {
        return false, [], TooLarge(n);
      }
      ghost var body := Ahead();
      data := ReadFull(n);
      assert stream == header + body;
      assert body == data + Ahead();
      if |data| < n {
        return false, [], ShortPayload;
      }
      assert stream[4..4 + n] == data;
      assert stream[4 + n..] == Ahead();
      ok, why := true, CleanEof;
    }

    /** Reads every frame; the result depends on the bytes only, not on how they were cut into chunks. */
    method ReadFrames() returns (frames: seq<bytes>, end: Reading)
      modifies this
      ensures Script(frames, end) == ParseAll(old(Ahead()))
    {
      frames := [];
      ghost var all := ParseAll(Ahead());
      while true
        invariant all == Script(frames + ParseAll(Ahead()).frames, ParseAll(Ahead()).end)
        decreases |Ahead()|
      {
        ghost var before := ParseAll(Ahead());
        var ok, data, why := ReadFrame();
        if !ok {
          end := why;
          assert frames + [] == frames;
          return;
        }
        assert before == Script([data] + ParseAll(Ahead()).frames, ParseAll(Ahead()).end);
        assert frames + ([data] + ParseAll(Ahead()).frames) == (frames + [data]) + ParseAll(Ahead()).frames;
        frames := frames + [data];
      }
    }
  }

  /** A connection being written; it accepts `room` more bytes before it fails. */
  class Sink {
    var data: bytes
    var room: nat
    var closes: nat

    constructor (room: nat)
      ensures data == [] && this.room == room && closes == 0
    {
      data, this.room, closes := [], room, 0;
    }

    /** A closed connection takes no more bytes. */
    method Close()
      modifies this
      ensures room == 0 && closes == old(closes) + 1 && data == old(data)
    {
      room, closes := 0, closes + 1;
    }

    method Write(b: bytes) returns (ok: bool)
      modifies this`data, this`room
      ensures ok <==> |b| <= old(room)
      ensures data == old(data) + if ok then b else b[..old(room)]
      ensures room == if ok then old(room) - |b| else 0
    {
      if |b| <= room {
        data, room := data + b, room - |b|;
        return true;
      }
      data, room := data + b[..room], 0;
      return false;
    }

    /** `WriteFrame`: header and payload as two writes. A failure leaves a proper part of the frame behind. */
    method WriteFrame(payload: bytes) returns (ok: bool)
      modifies this`data, this`room
      ensures ok <==> 4 + |payload| <= old(room)
      ensures ok ==> data == old(data) + Framed(payload)
      ensures !ok ==> data == old(data) + Framed(payload)[..old(room)]
    {
      ghost var frame := Framed(payload);
      var header := Be32(|payload| % UINT32);
      ok := Write(header);
      if ok {
        ok := Write(payload);
        assert old(data) + header + payload == old(data) + frame;
        assert !ok ==> frame[..old(room)] == header + payload[..old(room) - 4];
      } else {
        assert frame[..old(room)] == header[..old(room)];
      }
    }
  }
}
