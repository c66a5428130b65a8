/**
 * The multiplexed browser tunnel as one transition system: the server half
 * (server/tunnel_transport.go), the client half (cmd/cli/tunnel_client.go) and
 * the two frame channels between them.
 *
 * A step is one access to something shared: one operation on a stream map, one
 * read, write or close of a socket, one frame put on or taken off a channel.
 * Every interleaving of the goroutines is a sequence of such steps. Taken as one step although they are
 * several accesses: `closeSession`, `closeAll`, the reaction to a failed announcement or forward (close the
 * stream, close the session), a write to a socket with the bookkeeping for it or the close after its failure,
 * and reading the callback flag (which is never reset) with the `finish` that follows.
 */
module Protocol {
  import opened Options
  import opened Bytes
  import opened Callback

  /** The stream identifiers a uint32 counter can produce. */
  const ID_SPACE := 0x1_0000_0000

  type Id = n: int | 0 <= n < 0x1_0000_0000

  datatype Frame =
    | Open(id: Id, addr: string)
    | Data(id: Id, payload: bytes)
    | Eof(id: Id)
    | Close(id: Id)
    | Ping
    | Pong
  {
    predicate About(i: Id) {
      !Ping? && !Pong? && id == i
    }

    predicate Terminal() {
      Eof? || Close?
    }
  }

  /** A browser or local socket. `WriteShut` is a TCP socket after `CloseWrite`. */
  datatype Sock = NoSock | Live | WriteShut | Shut {
    predicate Readable() { Live? || WriteShut? }
  }

  /** What a `Read` reported beside the bytes it returned. */
  datatype Tail = More | AtEof | Broken

  /** Where the goroutine that serves one stream stands. */
  datatype Proc =
    | Absent
    | Accepted                           // server: id allocated, not yet in the map
    | Registered                         // server: in the map, `Open` not yet written
    | Reading                            // pipe: about to read its socket
    | Sending(chunk: bytes, tail: Tail)  // pipe: about to write a `Data` frame
    | Ending(clean: bool)                // pipe: about to write `EOF` or `Close`
    | Finishing                          // client pipe: `EOF` written, about to look at the callback flag
    | Dropping                           // pipe: deferred `dropStream` pending
    | Leaving                            // pipe: out of the map by `dropStream`, socket not yet closed
    | Halted
  {
    predicate Piping() { Reading? || Sending? || Ending? }
    predicate Over() { Dropping? || Leaving? || Halted? }
  }

  /** One side of one stream. `got` and `put` are everything read from and written to its socket. */
  datatype End = End(
    proc: Proc, addr: string, inMap: bool, sock: Sock,
    got: bytes, put: bytes, reqBuf: bytes, oauthDone: bool)

  const BLANK := End(Absent, "", false, NoSock, [], [], [], false)

  /** Where a frame-reading loop stands (`readPeerFrames`, `readFrames`). */
  datatype Reader =
    | Idle
    | Handling(frame: Frame)
    | Writing(id: Id, payload: bytes)
    | Shutting(id: Id)
    | Closing(id: Id)
    | Removing(id: Id)
    | Connecting(id: Id, addr: string)   // client: dialled, not yet in the map
    | Replying(frame: Frame)
    | Stopped
  {
    predicate About(i: Id) {
      match this
      case Idle => false
      case Stopped => false
      case Handling(f) => f.About(i)
      case Replying(f) => f.About(i)
      case Writing(id, _) => id == i
      case Shutting(id) => id == i
      case Closing(id) => id == i
      case Removing(id) => id == i
      case Connecting(id, _) => id == i
    }
  }

  /** One direction of the connection: frames already taken by the reader, and frames in flight. */
  datatype Link = Link(past: seq<Frame>, flight: seq<Frame>) {
    function All(): seq<Frame> { past + flight }
  }

  datatype Side = Side(ends: map<Id, End>, reader: Reader, up: bool) {
    function At(id: Id): End {
      if id in ends then ends[id] else BLANK
    }
  }

  /**
   * `closed` is the closed session of the server, `shut` records that the client ran
   * `closeAll`, `finisher` is the stream whose pipe called `finish`.
   */
  datatype State = State(
    sv: Side, cl: Side, s2c: Link, c2s: Link,
    accepts: nat, closed: bool, shut: bool, finisher: Option<Id>)

  const INIT := State(Side(map[], Idle, true), Side(map[], Idle, true),
                      Link([], []), Link([], []), 0, false, false, None)

  datatype Who = Server | Client

  datatype Action =
    | Accept(id: Id, addr: string)
    | Register(id: Id)
    | Announce(id: Id)
    | PipeRead(who: Who, id: Id, chunk: bytes, tail: Tail)
    | PipeSend(who: Who, id: Id)
    | PipeEnd(who: Who, id: Id)
    | PipeFinish(id: Id)
    | PipeDrop(who: Who, id: Id)
    | PipeClose(who: Who, id: Id)
    | Take(who: Who)
    | Handle(who: Who, dialed: bool)
    | Connect
    | WriteSock(who: Who, whole: bool, part: nat)
    | ShutSock(who: Who)
    | CloseSock(who: Who)
    | Remove(who: Who)
    | Reply(who: Who)
    | ReadError(who: Who)
    | LinkFail(who: Who)
    | SessionClose
    | CloseAll
    | Tick

  // ----- access to one half of the system

  function Mine(s: State, who: Who): Side {
    if who.Server? then s.sv else s.cl
  }

  function Incoming(s: State, who: Who): Link {
    if who.Server? then s.c2s else s.s2c
  }

  function SetSide(s: State, who: Who, side: Side): State {
    if who.Server? then s.(sv := side) else s.(cl := side)
  }

  function SetEnd(s: State, who: Who, id: Id, e: End): State {
    var side := Mine(s, who);
    SetSide(s, who, side.(ends := side.ends[id := e]))
  }

  function SetReader(s: State, who: Who, r: Reader): State {
    SetSide(s, who, Mine(s, who).(reader := r))
  }

  /** `writeFrame`: the frame enters the channel unless the endpoint is unusable. */
  function Emit(s: State, who: Who, f: Frame): State {
    if !Mine(s, who).up then s
    else if who.Server? then s.(s2c := s.s2c.(flight := s.s2c.flight + [f]))
    else s.(c2s := s.c2s.(flight := s.c2s.flight + [f]))
  }

  /** `nextID`: the value after the `n`-th increment of a uint32. */
  function NthId(n: nat): Id {
    n % ID_SPACE
  }

  // ----- closing

  /** `session.close` and `closeAll` close the sockets of the streams in the map. */
  function Cut(e: End): End {
    if e.inMap then e.(sock := Shut) else e
  }

  function CutAll(ends: map<Id, End>): map<Id, End> {
    map id | id in ends :: Cut(ends[id])
  }

  /** `closeSession`: only the first call finds the session and runs `session.close`. */
  function EndSession(s: State): State {
    if s.closed then s
    else s.(sv := s.sv.(ends := CutAll(s.sv.ends), up := false), closed := true)
  }

  /** The client's `closeAll`: close every stream and empty the map. */
  function EndClient(s: State): State {
    s.(cl := s.cl.(ends := map id | id in s.cl.ends :: Cut(s.cl.ends[id]).(inMap := false)), shut := true)
  }

  /** `dropStream` by a reader, which has closed the socket before: nobody sees it between delete and close. */
  function Drop(e: End): End {
    if e.inMap then e.(inMap := false, sock := Shut) else e
  }

  // ----- the steps

  predicate Enabled(s: State, a: Action) {
    match a
    case Accept(id, _) => s.accepts < ID_SPACE && id == NthId(s.accepts + 1)
    case Register(id) => s.sv.At(id).proc.Accepted?
    case Announce(id) => s.sv.At(id).proc.Registered?
    case PipeRead(who, id, chunk, tail) =>
      var e := Mine(s, who).At(id);
      && e.proc.Reading?
      && |chunk| <= PIPE_BUFFER
      && (e.sock.Readable() || (chunk == [] && tail.Broken?))
    case PipeSend(who, id) => Mine(s, who).At(id).proc.Sending?
    case PipeEnd(who, id) => Mine(s, who).At(id).proc.Ending?
    case PipeFinish(id) => s.cl.At(id).proc.Finishing?
    case PipeDrop(who, id) => Mine(s, who).At(id).proc.Dropping?
    case PipeClose(who, id) => Mine(s, who).At(id).proc.Leaving?
    case Take(who) => Mine(s, who).reader.Idle? && Incoming(s, who).flight != []
    case Handle(who, _) => Mine(s, who).reader.Handling?
    case Connect => s.cl.reader.Connecting?
    case WriteSock(who, whole, part) =>
      var r := Mine(s, who).reader;
      && r.Writing?
      && part <= |r.payload|
      && (Mine(s, who).At(r.id).sock.Live? || (!whole && part == 0))
    case ShutSock(who) => Mine(s, who).reader.Shutting?
    case CloseSock(who) => Mine(s, who).reader.Closing?
    case Remove(who) => Mine(s, who).reader.Removing?
    case Reply(who) => Mine(s, who).reader.Replying?
    case ReadError(who) => Mine(s, who).reader.Idle? && !(s.sv.up && s.cl.up)
    case LinkFail(who) => Mine(s, who).up
    case SessionClose => !s.closed
    case CloseAll => !s.shut
    case Tick => true
  }

  function DoAccept(s: State, id: Id, addr: string): State {
    SetEnd(s, Server, id, BLANK.(proc := Accepted, addr := addr, sock := Live)).(accepts := s.accepts + 1)
  }

  function DoRegister(s: State, id: Id): State {
    SetEnd(s, Server, id, s.sv.At(id).(proc := Registered, inMap := true))
  }

  /** A failed announcement closes the stream and the session; the stream stays in the map. */
  function DoAnnounce(s: State, id: Id): State {
    var e := s.sv.At(id);
    if s.sv.up then
      SetEnd(Emit(s, Server, Open(id, e.addr)), Server, id, e.(proc := Reading))
    else
      EndSession(SetEnd(s, Server, id, e.(proc := Halted, sock := Shut)))
  }

  /** The state of a pipe that has dealt with the bytes of its last read. */
  function AfterBytes(tail: Tail): Proc {
    match tail
    case More => Reading
    case AtEof => Ending(true)
    case Broken => Ending(false)
  }

  function DoPipeRead(s: State, who: Who, id: Id, chunk: bytes, tail: Tail): State {
    var e := Mine(s, who).At(id);
    SetEnd(s, who, id,
           e.(got := e.got + chunk, proc := if chunk != [] then Sending(chunk, tail) else AfterBytes(tail)))
  }

  function DoPipeSend(s: State, who: Who, id: Id): State
    requires Mine(s, who).At(id).proc.Sending?
  {
    var e := Mine(s, who).At(id);
    if Mine(s, who).up then
      SetEnd(Emit(s, who, Data(id, e.proc.chunk)), who, id, e.(proc := AfterBytes(e.proc.tail)))
    else
      var cut := SetEnd(s, who, id, e.(proc := Dropping, sock := Shut));
      if who.Server? then EndSession(cut) else cut
  }

  /** The last frame of a pipe. */
  function DoPipeEnd(s: State, who: Who, id: Id): State
    requires Mine(s, who).At(id).proc.Ending?
  {
    var e := Mine(s, who).At(id);
    var f := if e.proc.clean then Eof(id) else Close(id);
    SetEnd(Emit(s, who, f), who, id, e.(proc := if who.Client? && e.proc.clean then Finishing else Dropping))
  }

  /** A client pipe ends the worker if its callback was answered; only the first call of `finish` has an effect. */
  function DoPipeFinish(s: State, id: Id): State {
    var e := s.cl.At(id);
    var t := SetEnd(s, Client, id, e.(proc := Dropping));
    if s.finisher.Some? || !e.oauthDone || e.got == [] then t
    else t.(finisher := Some(id), cl := t.cl.(up := false))
  }

  /** The deferred `dropStream`: the map operation here, the close of the socket in a step of its own. */
  function DoPipeDrop(s: State, who: Who, id: Id): State {
    var e := Mine(s, who).At(id);
    SetEnd(s, who, id, if e.inMap then e.(inMap := false, proc := Leaving) else e.(proc := Halted))
  }

  function DoPipeClose(s: State, who: Who, id: Id): State {
    SetEnd(s, who, id, Mine(s, who).At(id).(sock := Shut, proc := Halted))
  }

  function DoTake(s: State, who: Who): State
    requires Incoming(s, who).flight != []
  {
    var l := Incoming(s, who);
    var rest := Link(l.past + [l.flight[0]], l.flight[1..]);
    SetReader(if who.Server? then s.(c2s := rest) else s.(s2c := rest), who, Handling(l.flight[0]))
  }

  /** The switch on the frame type, up to and including the stream lookup; `dialed` is the outcome of a dial. */
  function Dispatch(f: Frame, who: Who, inMap: bool, dialed: bool): Reader {
    match f
    case Open(id, addr) =>
      if who.Server? then Stopped else if dialed then Connecting(id, addr) else Replying(Close(id))
    case Data(id, payload) => if inMap then Writing(id, payload) else Idle
    case Eof(id) => if inMap then Shutting(id) else Idle
    case Close(id) => if inMap then Closing(id) else Idle
    case Ping => Replying(Pong)
    case Pong => Idle
  }

  function DoHandle(s: State, who: Who, dialed: bool): State
    requires Mine(s, who).reader.Handling?
  {
    var f := Mine(s, who).reader.frame;
    var inMap := !f.Ping? && !f.Pong? && Mine(s, who).At(f.id).inMap;
    SetReader(if who.Server? && f.Open? then EndSession(s) else s, who, Dispatch(f, who, inMap, dialed))
  }

  /** `openStream` after a successful dial: register the stream and start its pipe. */
  function DoConnect(s: State): State
    requires s.cl.reader.Connecting?
  {
    var r := s.cl.reader;
    SetReader(SetEnd(s, Client, r.id, BLANK.(proc := Reading, addr := r.addr, inMap := true, sock := Live)),
              Client, Idle)
  }

  /** A write of a data frame to the socket; a failed one may have written a part and closes the socket. */
  function Wrote(e: End, who: Who, payload: bytes, whole: bool, part: nat): End
    requires part <= |payload|
  {
    var reqBuf := if who.Client? && whole then Buffer(e.reqBuf, payload) else e.reqBuf;
    e.(put := e.put + (if whole then payload else payload[..part]),
       sock := if whole then e.sock else Shut,
       reqBuf := reqBuf,
       oauthDone := e.oauthDone || (who.Client? && LooksLikeCallback(reqBuf)))
  }

  function DoWriteSock(s: State, who: Who, whole: bool, part: nat): State
    requires Mine(s, who).reader.Writing? && part <= |Mine(s, who).reader.payload|
  {
    var r := Mine(s, who).reader;
    SetReader(SetEnd(s, who, r.id, Wrote(Mine(s, who).At(r.id), who, r.payload, whole, part)),
              who, if whole then Idle else Removing(r.id))
  }

  function DoShutSock(s: State, who: Who): State
    requires Mine(s, who).reader.Shutting?
  {
    var id := Mine(s, who).reader.id;
    var e := Mine(s, who).At(id);
    SetReader(SetEnd(s, who, id, if e.sock.Live? then e.(sock := WriteShut) else e), who, Idle)
  }

  function DoCloseSock(s: State, who: Who): State
    requires Mine(s, who).reader.Closing?
  {
    var id := Mine(s, who).reader.id;
    SetReader(SetEnd(s, who, id, Mine(s, who).At(id).(sock := Shut)), who, Removing(id))
  }

  function DoRemove(s: State, who: Who): State
    requires Mine(s, who).reader.Removing?
  {
    var id := Mine(s, who).reader.id;
    SetReader(SetEnd(s, who, id, Drop(Mine(s, who).At(id))), who, Idle)
  }

  function DoReply(s: State, who: Who): State
    requires Mine(s, who).reader.Replying?
  {
    SetReader(Emit(s, who, Mine(s, who).reader.frame), who, Idle)
  }

  function DoReadError(s: State, who: Who): State {
    SetReader(if who.Server? then EndSession(s) else s, who, Stopped)
  }

  function Apply(s: State, a: Action): State
    requires Enabled(s, a)
  {
    match a
    case Accept(id, addr) => DoAccept(s, id, addr)
    case Register(id) => DoRegister(s, id)
    case Announce(id) => DoAnnounce(s, id)
    case PipeRead(who, id, chunk, tail) => DoPipeRead(s, who, id, chunk, tail)
    case PipeSend(who, id) => DoPipeSend(s, who, id)
    case PipeEnd(who, id) => DoPipeEnd(s, who, id)
    case PipeFinish(id) => DoPipeFinish(s, id)
    case PipeDrop(who, id) => DoPipeDrop(s, who, id)
    case PipeClose(who, id) => DoPipeClose(s, who, id)
    case Take(who) => DoTake(s, who)
    case Handle(who, dialed) => DoHandle(s, who, dialed)
    case Connect => DoConnect(s)
    case WriteSock(who, whole, part) => DoWriteSock(s, who, whole, part)
    case ShutSock(who) => DoShutSock(s, who)
    case CloseSock(who) => DoCloseSock(s, who)
    case Remove(who) => DoRemove(s, who)
    case Reply(who) => DoReply(s, who)
    case ReadError(who) => DoReadError(s, who)
    case LinkFail(who) => SetSide(s, who, Mine(s, who).(up := false))
    case SessionClose => EndSession(s)
    case CloseAll => EndClient(s)
    case Tick => Emit(s, Client, Ping)
  }

  // ----- runs

  predicate CanRun(s: State, acts: seq<Action>)
    decreases |acts|
  {
    acts == [] || (Enabled(s, acts[0]) && CanRun(Apply(s, acts[0]), acts[1..]))
  }

  function Run(s: State, acts: seq<Action>): State
    requires CanRun(s, acts)
    decreases |acts|
  {
    if acts == [] then s else Run(Apply(s, acts[0]), acts[1..])
  }
}
