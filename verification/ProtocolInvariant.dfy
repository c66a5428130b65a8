/** The inductive invariant of the tunnel, stated one stream at a time. */
module ProtocolInvariant {
  import opened Options
  import opened Bytes
  import opened Callback
  import opened Protocol

  // ----- what one stream sees of the system

  function Only(fs: seq<Frame>, id: Id): seq<Frame> {
    if fs == [] then []
    else
      var last := fs[|fs| - 1];
      Only(fs[..|fs| - 1], id) + if last.About(id) then [last] else []
  }

  /** The bytes carried by the data frames of a frame sequence. */
  function Carried(fs: seq<Frame>): bytes {
    if fs == [] then []
    else
      var last := fs[|fs| - 1];
      Carried(fs[..|fs| - 1]) + if last.Data? then last.payload else []
  }

  function Narrow(r: Reader, id: Id): Reader {
    if r.About(id) then r else Idle
  }

  datatype View = View(
    sv: End, cl: End, down: Link, up: Link,
    svReader: Reader, clReader: Reader, svUp: bool, clUp: bool, closed: bool, finisher: bool)

  function NarrowLink(l: Link, id: Id): Link {
    Link(Only(l.past, id), Only(l.flight, id))
  }

  function ViewOf(s: State, id: Id): View {
    View(s.sv.At(id), s.cl.At(id), NarrowLink(s.s2c, id), NarrowLink(s.c2s, id),
         Narrow(s.sv.reader, id), Narrow(s.cl.reader, id), s.sv.up, s.cl.up, s.closed, s.finisher == Some(id))
  }

  // ----- the shape of a conversation

  predicate Fits(f: Frame) {
    f.Data? && 0 < |f.payload| <= PIPE_BUFFER
  }

  predicate Datas(fs: seq<Frame>) {
    forall i | 0 <= i < |fs| :: Fits(fs[i])
  }

  /** Data* if still open, Data* (EOF|Close) if ended. */
  predicate Talk(fs: seq<Frame>, ended: bool) {
    if ended then fs != [] && fs[|fs| - 1].Terminal() && Datas(fs[..|fs| - 1]) else Datas(fs)
  }

  /** Open Data* (EOF|Close)?. */
  predicate Announced(fs: seq<Frame>, addr: string, ended: bool) {
    fs != [] && fs[0].Open? && fs[0].addr == addr && Talk(fs[1..], ended)
  }

  // ----- the invariant of one stream

  /** The server's goroutine against everything it has put on the channel. */
  predicate ServerSends(v: View) {
    var fs := v.down.All();
    var e := v.sv;
    match e.proc
    case Absent => fs == [] && e == BLANK
    case Accepted => fs == [] && e == BLANK.(proc := Accepted, addr := e.addr, sock := Live)
    case Registered => fs == [] && e.got == e.put == []
    case Reading => Announced(fs, e.addr, false) && Carried(fs) == e.got
    case Sending(chunk, _) =>
      Announced(fs, e.addr, false) && Carried(fs) + chunk == e.got && 0 < |chunk| <= PIPE_BUFFER
    case Ending(_) => Announced(fs, e.addr, false) && Carried(fs) == e.got
    case Finishing => false
    case Dropping => ServerEnded(v)
    case Leaving => ServerEnded(v)
    case Halted => ServerEnded(v) || (fs == [] && !v.svUp && e.got == e.put == [])
  }

  predicate ServerEnded(v: View) {
    var fs := v.down.All();
    || (Announced(fs, v.sv.addr, true) && Carried(fs) == v.sv.got)
    || (Announced(fs, v.sv.addr, false) && !v.svUp && Carried(fs) <= v.sv.got)
  }

  predicate ClientSends(v: View) {
    var fs := v.up.All();
    var e := v.cl;
    match e.proc
    case Absent => e == BLANK && (fs == [] || (|fs| == 1 && fs[0].Close?))
    case Accepted => false
    case Registered => false
    case Reading => Datas(fs) && Carried(fs) == e.got
    case Sending(chunk, _) => Datas(fs) && Carried(fs) + chunk == e.got && 0 < |chunk| <= PIPE_BUFFER
    case Ending(_) => Datas(fs) && Carried(fs) == e.got
    case Finishing => ClientEnded(v) && Carried(fs) == e.got
    case Dropping => ClientEnded(v)
    case Leaving => ClientEnded(v)
    case Halted => ClientEnded(v)
  }

  predicate ClientEnded(v: View) {
    var fs := v.up.All();
    || (Talk(fs, true) && Carried(fs) == v.cl.got)
    || (Datas(fs) && !v.clUp && Carried(fs) <= v.cl.got)
  }

  /** The `Open` frame of the stream is being dealt with by the client. */
  predicate Arriving(r: Reader) {
    (r.Handling? && r.frame.Open?) || r.Connecting? || r.Replying?
  }

  /** The reader looked the stream up in the map. */
  predicate Found(r: Reader) {
    r.Writing? || r.Shutting? || r.Closing? || r.Removing?
  }

  /** How far the client is with the `Open` frame. */
  predicate Stage(v: View) {
    && (v.down.past == [] ==> v.cl == BLANK && v.up.All() == [] && v.clReader.Idle?)
    && (Arriving(v.clReader) ==> |v.down.past| == 1 && v.cl == BLANK && v.up.All() == [])
    && (v.clReader.Connecting? ==> v.clReader.addr == v.sv.addr)
    && (v.clReader.Replying? ==> v.clReader.frame.Close?)
    && (v.cl.proc.Absent? && v.down.past != [] && !Arriving(v.clReader) && v.clUp ==> v.up.All() != [])
    && (!v.cl.proc.Absent? ==> v.cl.addr == v.sv.addr)
    && !Arriving(v.svReader)
    && (Found(v.clReader) ==> !v.cl.proc.Absent?)
    && (Found(v.svReader) ==> !v.sv.proc.Absent?)
    && (!v.svReader.Idle? ==> v.up.past != [])
  }

  predicate HoldsData(r: Reader) {
    r.Writing? || (r.Handling? && r.frame.Data?)
  }

  /** The frames taken off the channel whose bytes the socket should have by now. */
  function Settled(past: seq<Frame>, r: Reader): seq<Frame> {
    if HoldsData(r) && past != [] then past[..|past| - 1] else past
  }

  /** The frame in the reader's hand is the last one it took. */
  predicate InHand(past: seq<Frame>, r: Reader) {
    match r
    case Handling(f) => past != [] && past[|past| - 1] == f
    case Writing(id, payload) => past != [] && past[|past| - 1] == Data(id, payload)
    case Shutting(id) => past != [] && past[|past| - 1] == Eof(id)
    case Closing(id) => past != [] && past[|past| - 1] == Close(id)
    case Removing(_) => past != []
    case _ => true
  }

  /**
   * A socket, and what the reader has taken off the channel for it. Frames that come after the stream left the
   * map are lost even if the socket is still open, unless the reader had looked the stream up before.
   */
  predicate Receives(put: bytes, sock: Sock, inMap: bool, past: seq<Frame>, r: Reader) {
    && InHand(past, r)
    && put <= Carried(Settled(past, r))
    && (sock.Readable() && (inMap || sock.WriteShut? || Found(r)) ==> put == Carried(Settled(past, r)))
    && (sock.WriteShut? ==> past != [] && past[|past| - 1].Eof?)
    && (past != [] && past[|past| - 1].Eof? && sock.Live? && inMap ==> r.Handling? || r.Shutting?)
    && (r.Removing? ==> sock.Shut?)
    && (past != [] && past[|past| - 1].Close? && inMap ==> r.Handling? || r.Closing? || r.Removing?)
  }

  predicate ClientReceives(v: View) {
    Receives(v.cl.put, v.cl.sock, v.cl.inMap, v.down.past, v.clReader)
  }

  predicate ServerReceives(v: View) {
    Receives(v.sv.put, v.sv.sock, v.sv.inMap, v.up.past, v.svReader)
  }

  predicate ServerOwns(v: View) {
    var e := v.sv;
    && (v.closed ==> !v.svUp)
    && (e.inMap ==> !e.proc.Absent? && !e.proc.Accepted?)
    && (e.proc.Registered? ==> e.inMap && !e.sock.WriteShut?)
    && (!e.proc.Absent? ==> !e.sock.NoSock?)
    && (e.proc.Piping() || e.proc.Over() ==> e.inMap || e.sock.Shut? || e.proc.Leaving?)
    && (e.proc.Leaving? ==> !e.inMap)
    && (e.proc.Halted? && e.inMap ==> e.sock.Shut? && !v.svUp)
    && (v.closed && e.sock.Readable() ==> e.proc.Accepted? || e.proc.Registered? || e.proc.Leaving?)
  }

  predicate ClientOwns(v: View) {
    var e := v.cl;
    && (!e.proc.Absent? ==> e.inMap || e.sock.Shut? || e.proc.Leaving?)
    && (!e.proc.Absent? ==> !e.sock.NoSock?)
    && (e.proc.Halted? || e.proc.Leaving? ==> !e.inMap)
  }

  predicate Detects(v: View) {
    var e := v.cl;
    && e.oauthDone == LooksLikeCallback(e.reqBuf)
    && e.reqBuf <= e.put
    && (e.sock.Readable() && |e.reqBuf| < REQUEST_BUFFER ==> e.reqBuf == e.put)
    && (v.finisher ==>
          && e.proc.Over() && !v.clUp
          && e.oauthDone && e.got != [] && Carried(v.up.All()) == e.got)
  }

  predicate StreamInv(v: View) {
    && ServerSends(v)
    && ClientSends(v)
    && Stage(v)
    && ClientReceives(v)
    && ServerReceives(v)
    && ServerOwns(v)
    && ClientOwns(v)
    && Detects(v)
  }

  // ----- the invariant of the whole system

  /** The ids handed out by the first `n` increments of the counter. */
  predicate Allocated(id: Id, n: nat) {
    1 <= id <= n || (id == 0 && n == ID_SPACE)
  }

  ghost predicate Inv(s: State) {
    && s.accepts <= ID_SPACE
    && (forall id: Id :: s.sv.At(id).proc.Absent? <==> !Allocated(id, s.accepts))
    && (s.closed ==> !s.sv.up)
    && (s.sv.reader.Stopped? || s.cl.reader.Stopped? ==> !(s.sv.up && s.cl.up))
    && (s.finisher.Some? ==> !s.cl.up)
    && (forall id: Id :: StreamInv(ViewOf(s, id)))
  }
}
