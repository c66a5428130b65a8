/**
 * The authenticated tunnel codec. server/tunnel_transport.go and cmd/cli/tunnel_client.go carry the same
 * code; `Sealed` is the writing half of either and `Unseal` the reading half of either.
 */
module Codec {
  import opened Options
  import opened Bytes
  import opened Frames
  import Protocol

  const MAC_SIZE := 32

  /**
   * HMAC-SHA256 under the session key (section 2 of RFC 2104): any function with 32 bytes of output. A function
   * with another output length is replaced by a constant.
   */
  datatype Mac = Mac(f: bytes -> bytes) {
    function Tag(body: bytes): (t: bytes)
      ensures |t| == MAC_SIZE
    {
      var t := f(body);
      if |t| == MAC_SIZE then t else seq(MAC_SIZE, _ => 0)
    }

    /** The function has 32 bytes of output, as HMAC-SHA256 does. */
    ghost predicate Sound() {
      forall body: bytes :: |f(body)| == MAC_SIZE
    }
  }

  /** A frame as the codec sees it: the type byte is not yet interpreted. */
  datatype Raw = Raw(kind: byte, id: Protocol.Id, payload: bytes)

  function Body(f: Raw): bytes {
    [f.kind] + Be32(f.id) + f.payload
  }

  /** The bytes that `tunnelEndpoint.writeFrame` hands to `WriteFrame`. */
  function Sealed(mac: Mac, f: Raw): bytes {
    Body(f) + mac.Tag(Body(f))
  }

  datatype Unsealed = Opened(frame: Raw) | TooShort | BadMac

  /** `tunnelEndpoint.readFrame` on the payload of one wire frame. */
  function Unseal(mac: Mac, data: bytes): Unsealed {
    if |data| < 1 + 4 + MAC_SIZE then TooShort
    else
      var body := data[..|data| - MAC_SIZE];
      if data[|data| - MAC_SIZE..] != mac.Tag(body) then BadMac
      else Opened(Raw(body[0], FromBe32(body[1..5]), body[5..]))
  }

  lemma UnsealSealed(mac: Mac, f: Raw)
    ensures Unseal(mac, Sealed(mac, f)) == Opened(f)
  {
    hide Be32, FromBe32;
    var body, data := Body(f), Sealed(mac, f);
    assert data[..|data| - MAC_SIZE] == body;
    assert data[|data| - MAC_SIZE..] == mac.Tag(body);
    assert body[1..5] == Be32(f.id);
    Be32Reads(f.id);
    assert body[5..] == f.payload;
  }

  lemma OpenedWasSealed(mac: Mac, data: bytes)
    requires Unseal(mac, data).Opened?
    ensures data == Sealed(mac, Unseal(mac, data).frame)
  {
    hide Be32, FromBe32;
    var f := Unseal(mac, data).frame;
    var body := data[..|data| - MAC_SIZE];
    Be32Unique(body[1..5]);
    assert body == [body[0]] + body[1..5] + body[5..];
    assert Body(f) == body;
    assert data == body + data[|data| - MAC_SIZE..];
  }

  /** Only sealed frames open: what one side accepts, the other side could have written. */
  lemma OnlySealedOpens(mac: Mac, data: bytes)
    ensures Unseal(mac, data).Opened? <==> exists f :: data == Sealed(mac, f)
  {
    hide Unseal, Sealed;
    if Unseal(mac, data).Opened? {
      OpenedWasSealed(mac, data);
    }
    if f :| data == Sealed(mac, f) {
      UnsealSealed(mac, f);
    }
  }

  /** The bytes of a sealed frame: type, id, payload, and the MAC of all of them. */
  lemma SealedBytes(mac: Mac, r: Raw)
    requires mac.Sound()
    ensures var body := [r.kind] + Be32(r.id) + r.payload;
            Sealed(mac, r) == body + mac.f(body)
  {
    hide Be32;
    assert |mac.f(Body(r))| == MAC_SIZE;
  }

  /** A payload opens exactly if its last 32 bytes are the MAC of everything before them, under this key. */
  lemma OpensExactly(mac: Mac, data: bytes)
    requires mac.Sound()
    ensures Unseal(mac, data).Opened? <==>
            |data| >= 37 && data[|data| - 32..] == mac.f(data[..|data| - 32])
    ensures Unseal(mac, data).TooShort? <==> |data| < 37
    ensures Unseal(mac, data).Opened? ==>
              var r := Unseal(mac, data).frame;
              data[..|data| - 32] == [r.kind] + Be32(r.id) + r.payload
  {
    hide Be32, FromBe32;
    if |data| >= 37 {
      assert |mac.f(data[..|data| - 32])| == MAC_SIZE;
      if Unseal(mac, data).Opened? {
        OpenedWasSealed(mac, data);
        assert data[..|data| - 32] == Body(Unseal(mac, data).frame);
      }
    }
  }

  /** Under another key a sealed frame opens only if both keys give its body the same MAC. */
  lemma OtherKeyRefuses(mac: Mac, other: Mac, r: Raw)
    requires mac.Sound() && other.Sound()
    ensures var body := [r.kind] + Be32(r.id) + r.payload;
            Unseal(other, Sealed(mac, r)) == if other.f(body) == mac.f(body) then Opened(r) else BadMac
  {
    hide Be32, FromBe32;
    var data, body := Sealed(mac, r), Body(r);
    SealedBytes(mac, r);
    UnsealSealed(other, r);
    SealedBytes(other, r);
    assert data[..|data| - MAC_SIZE] == body && data[|data| - MAC_SIZE..] == mac.f(body);
  }

  // ----- frame types

  const ATTACH: byte := 1

  /** `encoding/json` on the open payload, known only by being invertible. */
  datatype Json = Json(write: string -> bytes, read: bytes -> Option<string>) {
    ghost predicate Lawful() {
      forall s: string :: read(write(s)) == Some(s)
    }
  }

  /** A codec of this kind exists: three bytes for every character. */
  function Spell(s: string): (b: bytes)
    ensures |b| == 3 * |s|
  {
    if s == [] then []
    else
      var c := s[0] as int;
      [c / 0x1_0000, c / 256 % 256, c % 256] + Spell(s[1..])
  }

  function Unspell(b: bytes): Option<string> {
    if b == [] then Some("")
    else if |b| < 3 then None
    else
      var c := (b[0] as int) * 0x1_0000 + (b[1] as int) * 256 + b[2];
      if !(c < 0xD800 || 0xE000 <= c < 0x11_0000) then None
      else match Unspell(b[3..])
           case Some(rest) => Some([c as char] + rest)
           case None => None
  }

  lemma {:induction false} SpellReads(s: string)
    ensures Unspell(Spell(s)) == Some(s)
  {
    if s != [] {
      var c := s[0] as int;
      var b := [c / 0x1_0000, c / 256 % 256, c % 256];
      SpellReads(s[1..]);
      assert Spell(s)[3..] == Spell(s[1..]);
      assert b[0] * 0x1_0000 + b[1] * 256 + b[2] == c;
      assert [s[0]] + s[1..] == s;
    }
  }

  lemma LawfulJsonExists() returns (json: Json)
    ensures json.Lawful() && forall s: string :: |json.write(s)| == 3 * |s|
  {
    json := Json(s => Spell(s), b => Unspell(b));
    forall s: string ensures json.read(json.write(s)) == Some(s) {
      SpellReads(s);
    }
  }

  function Encode(json: Json, f: Protocol.Frame): Raw {
    match f
    case Open(id, addr) => Raw(2, id, json.write(addr))
    case Data(id, payload) => Raw(3, id, payload)
    case Eof(id) => Raw(4, id, [])
    case Close(id) => Raw(5, id, [])
    case Ping => Raw(6, 0, [])
    case Pong => Raw(7, 0, [])
  }

  datatype Meaning = Means(frame: Protocol.Frame) | Ignored | Fatal

  /** The switch on the frame type: attach and error frames are skipped, unknown ones end the reading loop. */
  function Decode(json: Json, r: Raw): Meaning {
    if r.kind == 2 then
      match json.read(r.payload)
      case Some(addr) => Means(Protocol.Open(r.id, addr))
      case None => Fatal
    else if r.kind == 3 then Means(Protocol.Data(r.id, r.payload))
    else if r.kind == 4 then Means(Protocol.Eof(r.id))
    else if r.kind == 5 then Means(Protocol.Close(r.id))
    else if r.kind == 6 then Means(Protocol.Ping)
    else if r.kind == 7 then Means(Protocol.Pong)
    else if r.kind == ATTACH || r.kind == 8 then Ignored
    else Fatal
  }

  /** The numbers of the frame types. */
  lemma TypeNumbers(json: Json, f: Protocol.Frame)
    ensures Encode(json, f).kind == match f case Open(_, _) => 2 case Data(_, _) => 3 case Eof(_) => 4
                                            case Close(_) => 5 case Ping => 6 case Pong => 7
    ensures !f.Ping? && !f.Pong? ==> Encode(json, f).id == f.id
  {
  }

  lemma DecodeEncoded(json: Json, f: Protocol.Frame)
    requires json.Lawful()
    ensures Decode(json, Encode(json, f)) == Means(f)
  {
  }

  // ----- the channel

  function Wrapped(mac: Mac, json: Json, f: Protocol.Frame): bytes {
    Sealed(mac, Encode(json, f))
  }

  function WrapAll(mac: Mac, json: Json, fs: seq<Protocol.Frame>): seq<bytes> {
    if fs == [] then [] else [Wrapped(mac, json, fs[0])] + WrapAll(mac, json, fs[1..])
  }

  function Unwrapped(mac: Mac, json: Json, data: bytes): Meaning {
    match Unseal(mac, data)
    case Opened(r) => Decode(json, r)
    case _ => Fatal
  }

  /** What a reading loop makes of the payloads it is given, up to the first one it rejects. */
  function UnwrapAll(mac: Mac, json: Json, ps: seq<bytes>): seq<Protocol.Frame> {
    if ps == [] then []
    else match Unwrapped(mac, json, ps[0])
         case Means(f) => [f] + UnwrapAll(mac, json, ps[1..])
         case Ignored => UnwrapAll(mac, json, ps[1..])
         case Fatal => []
  }

  /** The largest payload that a sealed frame can carry. */
  const MAX_PAYLOAD := MAX_FRAME - (1 + 4 + MAC_SIZE)

  ghost predicate Sendable(json: Json, f: Protocol.Frame) {
    |Encode(json, f).payload| <= MAX_PAYLOAD
  }

  ghost predicate AllSendable(json: Json, fs: seq<Protocol.Frame>) {
    forall f | f in fs :: Sendable(json, f)
  }

  lemma {:induction false} UnwrapInvertsWrap(mac: Mac, json: Json, fs: seq<Protocol.Frame>)
    requires json.Lawful()
    ensures UnwrapAll(mac, json, WrapAll(mac, json, fs)) == fs
  {
    hide Sealed, Unseal, Encode, Decode;
    if fs != [] {
      UnsealSealed(mac, Encode(json, fs[0]));
      DecodeEncoded(json, fs[0]);
      UnwrapInvertsWrap(mac, json, fs[1..]);
    }
  }

  lemma {:induction false} WrappedFit(mac: Mac, json: Json, fs: seq<Protocol.Frame>)
    requires AllSendable(json, fs)
    ensures Fit(WrapAll(mac, json, fs))
  {
    if fs != [] {
      assert fs[0] in fs;
      WrappedFit(mac, json, fs[1..]);
      assert Sendable(json, fs[0]);
      assert |Wrapped(mac, json, fs[0])| <= MAX_FRAME;
    }
  }

  /** The wire carries a sequence of protocol frames without loss, addition or reordering. */
  lemma WireCarriesFrames(mac: Mac, json: Json, fs: seq<Protocol.Frame>)
    requires json.Lawful() && AllSendable(json, fs)
    ensures var script := ParseAll(FrameAll(WrapAll(mac, json, fs)));
            script.end.CleanEof? && UnwrapAll(mac, json, script.frames) == fs
  {
    var ps := WrapAll(mac, json, fs);
    WrappedFit(mac, json, fs);
    AllReadBack(ps, []);
    assert FrameAll(ps) + [] == FrameAll(ps) && ps + [] == ps;
    UnwrapInvertsWrap(mac, json, fs);
  }

  // ----- the endpoint

  class Endpoint {
    const sink: Sink
    const source: Source
    const mac: Mac
    var closed: bool

    constructor (sink: Sink, source: Source, mac: Mac)
      ensures this.sink == sink && this.source == source && this.mac == mac && !closed
    {
      this.sink, this.source, this.mac, closed := sink, source, mac, false;
    }

    /** Only the first close reaches the connection, and nothing can be written after it. */
    method Close()
      modifies this, sink
      ensures closed && sink.data == old(sink.data)
      ensures if old(closed) then sink.room == old(sink.room) && sink.closes == old(sink.closes)
              else sink.room == 0 && sink.closes == old(sink.closes) + 1
    {
      if !closed {
        closed := true;
        sink.Close();
      }
    }

    method WriteFrame(f: Raw) returns (ok: bool)
      modifies sink
      ensures ok <==> 4 + |Sealed(mac, f)| <= old(sink.room)
      ensures sink.closes == old(sink.closes)
      ensures ok ==> sink.data == old(sink.data) + Framed(Sealed(mac, f))
      ensures !ok ==> sink.data == old(sink.data) + Framed(Sealed(mac, f))[..old(sink.room)]
      ensures ok && mac.Sound() ==>
                var body := [f.kind] + Be32(f.id) + f.payload;
                sink.data == old(sink.data) + Framed(body + mac.f(body))
    {
      var body := new byte[5 + |f.payload|](_ => 0);
      body[0] := f.kind;
      var id := Be32(f.id);
      body[1], body[2], body[3], body[4] := id[0], id[1], id[2], id[3];
      forall i | 0 <= i < |f.payload| {
        body[5 + i] := f.payload[i];
      }
      assert body[..] == Body(f);
      if mac.Sound() { SealedBytes(mac, f); }
      ok := sink.WriteFrame(body[..] + mac.Tag(body[..]));
    }

    /** Reads what any endpoint with the same key wrote, and nothing else. */
    method ReadFrame() returns (ok: bool, f: Raw)
      modifies source
      ensures ok ==> Parse(old(source.Ahead())) == Payload(Sealed(mac, f), source.Ahead())
      ensures !ok ==> !Parse(old(source.Ahead())).Payload? ||
                      forall g :: Parse(old(source.Ahead())).data != Sealed(mac, g)
      ensures mac.Sound() && Parse(old(source.Ahead())).Payload? ==>
                var data := Parse(old(source.Ahead())).data;
                ok <==> |data| >= 37 && data[|data| - 32..] == mac.f(data[..|data| - 32])
    {
      var got, raw, _ := source.ReadFrame();
      f := Raw(0, 0, []);
      if !got {
        return false, f;
      }
      OnlySealedOpens(mac, raw);
      if mac.Sound() { OpensExactly(mac, raw); }
      assert Unseal(mac, raw).Opened? ==> raw == Sealed(mac, Unseal(mac, raw).frame) by {
        if Unseal(mac, raw).Opened? { OpenedWasSealed(mac, raw); }
      }
      if |raw| < 1 + 4 + MAC_SIZE {
        return false, f;
      }
      var body, want := raw[..|raw| - MAC_SIZE], raw[|raw| - MAC_SIZE..];
      if want != mac.Tag(body) {
        return false, f;
      }
      ok, f := true, Raw(body[0], FromBe32(body[1..5]), body[5..]);
    }
  }
}
