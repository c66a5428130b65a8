/** Signed requests: the client's `secConn.Write` (cmd/cli/main_cli.go) against the server's `secConn.Read`. */
module SecConn {
  import opened Options
  import opened Bytes
  import opened Frames
  import Attach
  import Codec

  /** Ed25519 signing and SHA-256, known only by their lengths and by verification of what was signed. */
  datatype Scheme = Scheme(
    sign: (bytes, bytes) -> bytes, open: (bytes, bytes) -> Option<bytes>,
    pub: bytes -> bytes, hash: bytes -> bytes)
  {
    ghost predicate Lawful() {
      && (forall m: bytes, k: bytes :: open(sign(m, k), pub(k)) == Some(m))
      && (forall m: bytes, k: bytes :: |sign(m, k)| == 64 + |m|)
      && (forall b: bytes :: |hash(b)| == 32)
    }
  }

  /** A scheme of this kind exists. */
  lemma LawfulSchemeExists() returns (sc: Scheme)
    ensures sc.Lawful() && Unforgeable(sc)
  {
    var pad: bytes := seq(64, _ => 0);
    sc := Scheme((m, k) => pad + m, (m, k) => if pad <= m then Some(m[64..]) else None, k => k, b => pad[..32]);
    assert forall m: bytes :: (pad + m)[64..] == m;
    forall m: bytes, data: bytes, pk: bytes | sc.open(m, pk) == Some(data)
      ensures exists k: bytes :: sc.pub(k) == pk && m == sc.sign(data, k)
    {
      assert m == pad + m[64..];
      assert sc.pub(pk) == pk && m == sc.sign(data, pk);
    }
  }

  /** Signature, major, minor and patch version; the first byte is the letter g. */
  type Magic = m: bytes | |m| == 8 && m[0] == 103 witness [103, 99, 108, 112, 114, 2, 2, 0]

  /** Magic, key hash and signature overhead. */
  const OVERHEAD := 8 + 32 + 64

  /** The frame payload of one client request. */
  function Request(sc: Scheme, magic: Magic, key: bytes, p: bytes): bytes {
    magic + sc.hash(sc.pub(key)) + sc.sign(p, key)
  }

  datatype Outcome = Delivered(data: bytes) | Locked | Short | BadMagic | UnknownKey | BadSignature

  /** `secConn.Read` on the payload of one frame. */
  function Check(sc: Scheme, magic: Magic, trusted: map<bytes, bytes>, locked: bool, input: bytes): Outcome {
    if locked then Locked
    else if |input| <= OVERHEAD then Short
    else if input[..6] != magic[..6] then BadMagic
    else if input[8..40] !in trusted then UnknownKey
    else match sc.open(input[40..], trusted[input[8..40]])
         case Some(data) => Delivered(data)
         case None => BadSignature
  }

  /**
   * A request of a trusted client of the same major version is delivered exactly if the server is unlocked and it is
   * not empty.
   */
  lemma DeliveredExactly(sc: Scheme, mine: Magic, yours: Magic, key: bytes, trusted: map<bytes, bytes>, locked: bool,
                         p: bytes)
    requires sc.Lawful() && mine[..6] == yours[..6]
    requires sc.hash(sc.pub(key)) in trusted && trusted[sc.hash(sc.pub(key))] == sc.pub(key)
    ensures Check(sc, yours, trusted, locked, Request(sc, mine, key, p)) == Delivered(p) <==> !locked && p != []
  {
    var hpk, sig := sc.hash(sc.pub(key)), sc.sign(p, key);
    var input := Request(sc, mine, key, p);
    assert input[..6] == mine[..6];
    assert input[8..40] == hpk;
    assert input[40..] == sig;
  }

  /** The server can vouch for a payload: right magic and major version, a listed key, and its signature. */
  predicate Vouched(sc: Scheme, magic: Magic, trusted: map<bytes, bytes>, input: bytes, data: bytes) {
    && |input| > 104 && input[..6] == magic[..6]
    && input[8..40] in trusted && sc.open(input[40..], trusted[input[8..40]]) == Some(data)
  }

  /** Whoever wrote the input: it is delivered exactly if the server is unlocked and can vouch for it. */
  lemma DeliveredOnlyVouched(sc: Scheme, magic: Magic, trusted: map<bytes, bytes>, locked: bool, input: bytes,
                             data: bytes)
    ensures Check(sc, magic, trusted, locked, input) == Delivered(data) <==>
            !locked && Vouched(sc, magic, trusted, input, data)
  {
  }

  /**
   * Everything that a connection delivers, whatever its frames are, was opened under a listed key, frame by frame
   * and in order, and nothing behind a refused frame is delivered; a locked server delivers nothing.
   */
  lemma {:induction false} StreamOnlyVouched(sc: Scheme, magic: Magic, trusted: map<bytes, bytes>, locked: bool,
                                             frames: seq<bytes>)
    ensures var ps := ReadAll(sc, magic, trusted, locked, frames);
            && |ps| <= |frames| && (locked ==> ps == [])
            && (forall i | 0 <= i < |ps| :: Vouched(sc, magic, trusted, frames[i], ps[i]))
            && (|ps| < |frames| && !locked ==> forall data :: !Vouched(sc, magic, trusted, frames[|ps|], data))
  {
    hide Check, Vouched;
    if frames != [] {
      var rest := frames[1..];
      StreamOnlyVouched(sc, magic, trusted, locked, rest);
      forall data
        ensures Check(sc, magic, trusted, locked, frames[0]) == Delivered(data) <==>
                !locked && Vouched(sc, magic, trusted, frames[0], data)
      {
        DeliveredOnlyVouched(sc, magic, trusted, locked, frames[0], data);
      }
    }
  }

  /** Nobody but the holder of a key can make a message that opens under it. */
  ghost predicate Unforgeable(sc: Scheme) {
    forall m: bytes, data: bytes, pk: bytes | sc.open(m, pk) == Some(data) ::
      exists k: bytes :: sc.pub(k) == pk && m == sc.sign(data, k)
  }

  /** With an unforgeable scheme, everything delivered was signed with the secret half of a listed key. */
  lemma DeliveredWasSigned(sc: Scheme, magic: Magic, trusted: map<bytes, bytes>, locked: bool, frames: seq<bytes>,
                           i: nat)
    requires Unforgeable(sc) && i < |ReadAll(sc, magic, trusted, locked, frames)|
    ensures i < |frames| && |frames[i]| > 104
    ensures exists k, h :: h in trusted && sc.pub(k) == trusted[h] &&
                           frames[i][8..40] == h &&
                           frames[i][40..] == sc.sign(ReadAll(sc, magic, trusted, locked, frames)[i], k)
  {
    hide ReadAll;
    StreamOnlyVouched(sc, magic, trusted, locked, frames);
    var data := ReadAll(sc, magic, trusted, locked, frames)[i];
    assert Vouched(sc, magic, trusted, frames[i], data);
    var h := frames[i][8..40];
    var k :| sc.pub(k) == trusted[h] && frames[i][40..] == sc.sign(data, k);
  }

  // ----- end to end

  function Requests(sc: Scheme, magic: Magic, key: bytes, ps: seq<bytes>): seq<bytes> {
    if ps == [] then [] else [Request(sc, magic, key, ps[0])] + Requests(sc, magic, key, ps[1..])
  }

  /** What repeated `Read` delivers, up to the first refusal. */
  function ReadAll(sc: Scheme, magic: Magic, trusted: map<bytes, bytes>, locked: bool, frames: seq<bytes>): seq<bytes> {
    if frames == [] then []
    else match Check(sc, magic, trusted, locked, frames[0])
         case Delivered(p) => [p] + ReadAll(sc, magic, trusted, locked, frames[1..])
         case _ => []
  }

  ghost predicate Ordinary(ps: seq<bytes>) {
    forall i | 0 <= i < |ps| :: 0 < |ps[i]| <= MAX_FRAME - OVERHEAD
  }

  lemma {:induction false} RequestsFit(sc: Scheme, magic: Magic, key: bytes, ps: seq<bytes>)
    requires sc.Lawful() && Ordinary(ps)
    ensures Fit(Requests(sc, magic, key, ps))
    ensures |Requests(sc, magic, key, ps)| == |ps|
  {
    if ps != [] {
      assert Ordinary(ps[1..]);
      RequestsFit(sc, magic, key, ps[1..]);
    }
  }

  lemma {:induction false} AllDelivered(sc: Scheme, mine: Magic, yours: Magic, key: bytes,
                                        trusted: map<bytes, bytes>, ps: seq<bytes>)
    requires sc.Lawful() && mine[..6] == yours[..6] && Ordinary(ps)
    requires sc.hash(sc.pub(key)) in trusted && trusted[sc.hash(sc.pub(key))] == sc.pub(key)
    ensures ReadAll(sc, yours, trusted, false, Requests(sc, mine, key, ps)) == ps
  {
    hide Check, Request;
    if ps != [] {
      DeliveredExactly(sc, mine, yours, key, trusted, false, ps[0]);
      assert Ordinary(ps[1..]);
      AllDelivered(sc, mine, yours, key, trusted, ps[1..]);
      var rs := Requests(sc, mine, key, ps);
      assert rs[0] == Request(sc, mine, key, ps[0]) && rs[1..] == Requests(sc, mine, key, ps[1..]);
    }
  }

  /**
   * Requests written by a trusted client pass the first-frame dispatcher as RPC, whatever sessions exist, and
   * are delivered in order and unchanged.
   */
  lemma SignedEndToEnd(sc: Scheme, mine: Magic, yours: Magic, key: bytes, trusted: map<bytes, bytes>,
                       keys: map<bytes, Codec.Mac>, ps: seq<bytes>)
    requires sc.Lawful() && mine[..6] == yours[..6] && Ordinary(ps) && ps != []
    requires sc.hash(sc.pub(key)) in trusted && trusted[sc.hash(sc.pub(key))] == sc.pub(key)
    ensures var stream := FrameAll(Requests(sc, mine, key, ps));
            && Attach.Dispatch(keys, stream) == Attach.Rpc(stream)
            && ReadAll(sc, yours, trusted, false, ParseAll(stream).frames) == ps
            && ParseAll(stream).end.CleanEof?
  {
    var rs := Requests(sc, mine, key, ps);
    var stream := FrameAll(rs);
    RequestsFit(sc, mine, key, ps);
    AllReadBack(rs, []);
    assert stream + [] == stream && rs + [] == rs;
    AllDelivered(sc, mine, yours, key, trusted, ps);
    RequestIsRpc(sc, mine, key, ps[0], keys, FrameAll(rs[1..]));
  }

  lemma RequestIsRpc(sc: Scheme, magic: Magic, key: bytes, p: bytes, keys: map<bytes, Codec.Mac>, rest: bytes)
    requires sc.Lawful() && |p| <= MAX_FRAME - OVERHEAD
    ensures var stream := Framed(Request(sc, magic, key, p)) + rest;
            Attach.Dispatch(keys, stream) == Attach.Rpc(stream)
  {
    var raw := Request(sc, magic, key, p);
    var stream := Framed(raw) + rest;
    assert |raw| == OVERHEAD + |p| && raw[0] == magic[0];
    Attach.FirstFrame(raw, rest);
    hide Be32, FromBe32, Parse, Framed;
  }

  // ----- the client's writer and the server's reader

  /** The client's `secConn.Write`: header and signature appended into one frame. */
  method Write(sink: Sink, sc: Scheme, magic: Magic, key: bytes, p: bytes) returns (ok: bool, n: nat)
    modifies sink
    ensures ok <==> 4 + |Request(sc, magic, key, p)| <= old(sink.room)
    ensures ok ==> n == |p| && sink.data == old(sink.data) + Framed(Request(sc, magic, key, p))
    ensures !ok ==> n == 0
  {
    var header := magic + sc.hash(sc.pub(key));
    ok := sink.WriteFrame(header + sc.sign(p, key));
    n := if ok then |p| else 0;
  }

  /** `secConn.Read`: copies into the caller's buffer, but always reports the full length. */
  method Read(src: Source, sc: Scheme, magic: Magic, trusted: map<bytes, bytes>, locked: bool, p: array<byte>)
    returns (ok: bool, n: nat)
    modifies src, p
    ensures var r := Parse(old(src.Ahead()));
            ok <==> r.Payload? && Check(sc, magic, trusted, locked, r.data).Delivered?
    ensures var r := Parse(old(src.Ahead()));
            ok <==> !locked && r.Payload? && exists out :: Vouched(sc, magic, trusted, r.data, out)
    ensures ok ==>
              exists out :: Vouched(sc, magic, trusted, Parse(old(src.Ahead())).data, out) && n == |out| &&
                            forall i | 0 <= i < p.Length && i < n :: p[i] == out[i]
    ensures ok ==>
              var out := Check(sc, magic, trusted, locked, Parse(old(src.Ahead())).data).data;
              && n == |out|
              && src.Ahead() == Parse(old(src.Ahead())).rest
              && (n <= p.Length <==> p[..if n <= p.Length then n else p.Length] == out)
              && forall i | 0 <= i < p.Length :: p[i] == if i < n then out[i] else old(p[i])
    ensures !ok ==> n == 0 && forall i | 0 <= i < p.Length :: p[i] == old(p[i])
  {
    var got, input, _ := src.ReadFrame();
    ok, n := false, 0;
    if !got || locked || |input| <= OVERHEAD || input[..6] != magic[..6] {
      return;
    }
    var hpk := input[8..40];
    if hpk !in trusted {
      return;
    }
    match sc.open(input[40..], trusted[hpk]) {
      case None => return;
      case Some(out) =>
        var m := if |out| <= p.Length then |out| else p.Length;
        forall i | 0 <= i < m {
          p[i] := out[i];
        }
        assert p[..m] == out[..m];
        assert Vouched(sc, magic, trusted, input, out);
        ok, n := true, |out|;
    }
  }
}
