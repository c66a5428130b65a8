/**
 * The first frame of every connection decides whether it belongs to the tunnel or to RPC
 * (`Tunnel.attach` in server/server.go); what is not taken is replayed.
 */
module Attach {
  import opened Bytes
  import opened Frames
  import opened Codec
  import Protocol

  /**
   * `Rpc` hands a reader to the RPC server, `Taken` gives the session its peer, `Refused` closes the session
   * that was named, `Hangup` only closes the connection.
   */
  datatype Verdict =
    | Hangup
    | Rpc(stream: bytes)
    | Taken(session: bytes, rest: bytes)
    | Refused(session: bytes)

  /** The smallest payload that can be a sealed tunnel frame. */
  const SEALED_MIN := 1 + 4 + MAC_SIZE

  function Named(raw: bytes): bytes
    requires |raw| >= SEALED_MIN
  {
    raw[5..|raw| - MAC_SIZE]
  }

  /** `attach` on everything that will arrive; `keys` are the MAC functions of the live sessions. */
  function Dispatch(keys: map<bytes, Mac>, stream: bytes): Verdict {
    if |stream| < 4 then Hangup
    else if FromBe32(stream[..4]) == 0 || FromBe32(stream[..4]) > MAX_FRAME then Rpc(stream)
    else
      match Parse(stream)
      case Payload(raw, rest) =>
        var replay := Framed(raw) + rest;
        if |raw| < SEALED_MIN || raw[0] != ATTACH then Rpc(replay)
        else if Named(raw) == [] || Named(raw) !in keys then Hangup
        else Validate(keys, replay, Named(raw))
      case _ => Hangup
  }

  /** The endpoint reads the replayed frame again, now checking its MAC. */
  function Validate(keys: map<bytes, Mac>, replay: bytes, session: bytes): Verdict
    requires session in keys
  {
    match Parse(replay)
    case Payload(raw, rest) =>
      (match Unseal(keys[session], raw)
       case Opened(f) => if f.kind == ATTACH && f.payload == session then Taken(session, rest) else Refused(session)
       case _ => Refused(session))
    case _ => Refused(session)
  }

  /** A connection that is not the tunnel's reaches RPC byte for byte as it was sent. */
  lemma Transparent(keys: map<bytes, Mac>, stream: bytes)
    requires Dispatch(keys, stream).Rpc?
    ensures Dispatch(keys, stream).stream == stream
  {
    hide Be32, FromBe32, Parse, Framed, Unseal;
    if Parse(stream).Payload? {
      ParseIsFraming(stream);
    }
  }

  /** What the peek found is what the endpoint decodes: the name cannot change between the two readings. */
  lemma PeekIsDecoded(mac: Mac, raw: bytes)
    requires |raw| >= SEALED_MIN && raw[0] == ATTACH && Unseal(mac, raw).Opened?
    ensures Unseal(mac, raw).frame.kind == ATTACH && Unseal(mac, raw).frame.payload == Named(raw)
  {
    hide Be32, FromBe32;
    var body := raw[..|raw| - MAC_SIZE];
    assert body[5..] == Named(raw);
  }

  ghost predicate AttachFrame(mac: Mac, session: bytes, stream: bytes, rest: bytes) {
    exists id: Protocol.Id :: stream == Framed(Sealed(mac, Raw(ATTACH, id, session))) + rest
  }

  /**
   * A session gets its peer exactly if the stream starts with an attach frame sealed under its own key and
   * naming it; the endpoint then continues at the next frame.
   */
  lemma TakenExactly(keys: map<bytes, Mac>, stream: bytes, session: bytes, rest: bytes)
    ensures Dispatch(keys, stream) == Taken(session, rest) <==>
            && 0 < |session| <= MAX_FRAME - SEALED_MIN
            && session in keys && AttachFrame(keys[session], session, stream, rest)
  {
    hide Dispatch, AttachFrame;
    if Dispatch(keys, stream) == Taken(session, rest) {
      TakenIsAttach(keys, stream, session, rest);
    }
    if 0 < |session| <= MAX_FRAME - SEALED_MIN && session in keys &&
       AttachFrame(keys[session], session, stream, rest) {
      AttachIsTaken(keys, stream, session, rest);
    }
  }

  lemma TakenIsAttach(keys: map<bytes, Mac>, stream: bytes, session: bytes, rest: bytes)
    requires Dispatch(keys, stream) == Taken(session, rest)
    ensures 0 < |session| <= MAX_FRAME - SEALED_MIN
    ensures session in keys && AttachFrame(keys[session], session, stream, rest)
  {
    hide Be32, FromBe32, Unseal, Sealed, Parse, Framed;
    var raw, after := Parse(stream).data, Parse(stream).rest;
    ParseIsFraming(stream);
    ReadsBack(raw, after);
    OpenedWasSealed(keys[session], raw);
    var f := Unseal(keys[session], raw).frame;
    assert f == Raw(ATTACH, f.id, session);
    assert stream == Framed(Sealed(keys[session], Raw(ATTACH, f.id, session))) + rest;
  }

  lemma AttachIsTaken(keys: map<bytes, Mac>, stream: bytes, session: bytes, rest: bytes)
    requires 0 < |session| <= MAX_FRAME - SEALED_MIN
    requires session in keys && AttachFrame(keys[session], session, stream, rest)
    ensures Dispatch(keys, stream) == Taken(session, rest)
  {
    var mac := keys[session];
    var id: Protocol.Id :| stream == Framed(Sealed(mac, Raw(ATTACH, id, session))) + rest;
    var raw := Sealed(mac, Raw(ATTACH, id, session));
    SealedName(mac, id, session);
    UnsealSealed(mac, Raw(ATTACH, id, session));
    FirstFrame(raw, rest);
    hide Unseal, Sealed, Be32, FromBe32, Parse, Framed;
  }

  /** A frame that asks for the tunnel: long enough, of type 1, naming a session. */
  predicate AsksForTunnel(raw: bytes) {
    |raw| >= 37 && raw[0] == 1
  }

  /**
   * The verdict on every first frame, by its bytes alone: RPC unless it asks for the tunnel, a hangup if it names no
   * session that exists, and then taken or refused by whether its last 32 bytes are the MAC of the rest.
   */
  lemma VerdictOnFrame(keys: map<bytes, Mac>, raw: bytes, rest: bytes)
    requires |raw| <= MAX_FRAME && forall k | k in keys :: keys[k].Sound()
    ensures var verdict := Dispatch(keys, Framed(raw) + rest);
            if !AsksForTunnel(raw) then verdict == Rpc(Framed(raw) + rest)
            else
              var body, name := raw[..|raw| - 32], raw[5..|raw| - 32];
              verdict == if name == [] || name !in keys then Hangup
                         else if raw[|raw| - 32..] == keys[name].f(body) then Taken(name, rest)
                         else Refused(name)
  {
    FirstFrame(raw, rest);
    hide Be32, FromBe32, Parse, Framed, Unseal;
    if AsksForTunnel(raw) && Named(raw) in keys {
      var mac := keys[Named(raw)];
      OpensExactly(mac, raw);
      if Unseal(mac, raw).Opened? {
        PeekIsDecoded(mac, raw);
      }
    }
  }

  /** Without a first frame the connection is dropped, unless its length is out of bounds: that is left to RPC. */
  lemma VerdictWithoutFrame(keys: map<bytes, Mac>, stream: bytes)
    requires !Parse(stream).Payload?
    ensures Dispatch(keys, stream) == if Parse(stream).TooLarge? then Rpc(stream) else Hangup
  {
    hide Be32;
  }

  /**
   * An attach frame never goes to RPC, whatever sessions exist: it is taken or refused by the session it names, or
   * dropped if there is none.
   */
  lemma AttachIsNotRpc(keys: map<bytes, Mac>, mac: Mac, id: Protocol.Id, session: bytes, rest: bytes)
    requires |session| <= MAX_FRAME - SEALED_MIN
    ensures var raw := Sealed(mac, Raw(ATTACH, id, session));
            Dispatch(keys, Framed(raw) + rest) ==
            if session == [] || session !in keys then Hangup
            else if Unseal(keys[session], raw).Opened? then Taken(session, rest)
            else Refused(session)
  {
    var raw := Sealed(mac, Raw(ATTACH, id, session));
    SealedName(mac, id, session);
    FirstFrame(raw, rest);
    if session in keys && Unseal(keys[session], raw).Opened? {
      PeekIsDecoded(keys[session], raw);
    }
    hide Unseal, Sealed, Be32, FromBe32, Parse, Framed;
  }

  lemma FirstFrame(raw: bytes, rest: bytes)
    requires |raw| <= MAX_FRAME
    ensures var stream := Framed(raw) + rest;
            |stream| >= 4 && FromBe32(stream[..4]) == |raw| && Parse(stream) == Payload(raw, rest)
  {
    hide Parse, Be32, FromBe32;
    var stream := Framed(raw) + rest;
    ReadsBack(raw, rest);
    Be32Reads(|raw|);
    assert stream[..4] == Be32(|raw|);
  }

  lemma SealedName(mac: Mac, id: int, session: bytes)
    requires 0 <= id < UINT32
    ensures var raw := Sealed(mac, Raw(ATTACH, id, session));
            |raw| == SEALED_MIN + |session| && raw[0] == ATTACH && Named(raw) == session
  {
    hide Be32;
    var raw := Sealed(mac, Raw(ATTACH, id, session));
    assert raw[5..|raw| - MAC_SIZE] == session;
  }

  // ----- the code

  lemma HeaderBytes(n: nat)
    requires n <= MAX_FRAME
    ensures [n / 0x100_0000 % 256, n / 0x1_0000 % 256, n / 256 % 256, n % 256] == Be32(n)
  {
  }

  /** `appendFrame` fills one buffer with header and payload; for what `ReadFrame` returned it restores the frame. */
  method AppendFrame(payload: bytes) returns (frame: bytes)
    requires |payload| <= MAX_FRAME
    ensures frame == Framed(payload)
  {
    var n := |payload|;
    var buf := new byte[4 + n](_ => 0);
    var b0, b1, b2, b3 := n / 0x100_0000 % 256, n / 0x1_0000 % 256, n / 256 % 256, n % 256;
    hide Be32;
    HeaderBytes(n);
    buf[0], buf[1], buf[2], buf[3] := b0, b1, b2, b3;
    forall i | 0 <= i < n {
      buf[4 + i] := payload[i];
    }
    frame := buf[..];
    FrameBytes(frame, payload);
  }

  lemma FrameBytes(b: bytes, payload: bytes)
    requires |payload| <= MAX_FRAME && |b| == 4 + |payload|
    requires [b[0], b[1], b[2], b[3]] == Be32(|payload|)
    requires forall i | 0 <= i < |payload| :: b[4 + i] == payload[i]
    ensures b == Framed(payload)
  {
    hide Be32;
    assert b == [b[0], b[1], b[2], b[3]] + b[4..];
    assert b[4..] == payload;
  }

  /** `bufio.Reader.Peek`: looks ahead without consuming, over as many chunks as it takes. */
  method Peek(src: Source, n: nat) returns (prefix: bytes)
    ensures prefix <= src.Ahead()
    ensures |prefix| == if n <= |src.Ahead()| then n else |src.Ahead()|
  {
    prefix := [];
    var i := 0;
    while i < |src.chunks| && |prefix| < n
      invariant 0 <= i <= |src.chunks|
      invariant src.Ahead() == prefix + Join(src.chunks[i..])
    {
      prefix := prefix + src.chunks[i];
      i := i + 1;
    }
    assert i == |src.chunks| ==> src.chunks[i..] == [];
    if |prefix| > n {
      prefix := prefix[..n];
    }
  }

  /**
   * `attach` up to the session bookkeeping. For RPC, `next` is the reader to go on with; for a taken attach it
   * is the endpoint's reader, positioned behind the attach frame.
   */
  method Accept(src: Source, keys: map<bytes, Mac>) returns (verdict: Verdict, next: Source)
    modifies src
    ensures match Dispatch(keys, old(src.Ahead()))
            case Rpc(stream) => verdict.Rpc? && next.Ahead() == stream
            case Taken(session, rest) => verdict.Taken? && verdict.session == session && next.Ahead() == rest
            case other => verdict == other
  {
    hide Be32, FromBe32, Parse, Framed, Unseal;
    ghost var stream := src.Ahead();
    next := src;
    var prefix := Peek(src, 4);
    if |prefix| < 4 {
      return Hangup, next;
    }
    assert prefix == stream[..4];
    var n := FromBe32(prefix);
    if n == 0 || n > MAX_FRAME {
      return Rpc([]), next;
    }
    var ok, raw, _ := src.ReadFrame();
    if !ok {
      return Hangup, next;
    }
    ParseIsFraming(stream);
    var frame := AppendFrame(raw);
    next := new Source([frame] + src.chunks);
    assert next.Ahead() == frame + src.Ahead() by { assert next.chunks[1..] == src.chunks; }
    if |raw| < SEALED_MIN || raw[0] != ATTACH {
      return Rpc([]), next;
    }
    var session := Named(raw);
    if session == [] || session !in keys {
      return Hangup, next;
    }
    ReadsBack(raw, src.Ahead());
    var again, data, _ := next.ReadFrame();
    if !again {
      return Refused(session), next;
    }
    match Unseal(keys[session], data) {
      case Opened(f) =>
        if f.kind == ATTACH && f.payload == session {
          return Taken(session, []), next;
        }
        return Refused(session), next;
      case _ => return Refused(session), next;
    }
  }
}
