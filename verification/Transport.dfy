/**
 * The loops of server/tunnel_transport.go and cmd/cli/tunnel_client.go as code over mutable state. The two
 * sides carry the same loops with a few differing branches, so one class stands for both. What a loop does
 * when nobody interferes is a run of the transition system; `Protocol` has the interleavings.
 */
module Transport {
  import opened Options
  import opened Bytes
  import opened Callback
  import opened Protocol

  // ----- runs, one step at a time

  ghost predicate Path(s: State, acts: seq<Action>, t: State) {
    CanRun(s, acts) && Run(s, acts) == t
  }

  lemma {:induction false} Extends(s: State, acts: seq<Action>, t: State, a: Action)
    requires Path(s, acts, t) && Enabled(t, a)
    ensures Path(s, acts + [a], Apply(t, a))
    decreases |acts|
  {
    hide Enabled, Apply;
    if acts == [] {
      var one := [a];
      assert acts + [a] == one && one[1..] == [];
      assert Run(Apply(s, a), one[1..]) == Apply(s, a);
    } else {
      Extends(Apply(s, acts[0]), acts[1..], t, a);
      assert (acts + [a])[1..] == acts[1..] + [a];
    }
  }

  lemma Stay(s: State)
    ensures Path(s, [], s)
  {
  }

  // ----- the steps of a pipe

  lemma ReadPath(s: State, acts: seq<Action>, t: State, who: Who, id: Id, ev: Event)
    requires Path(s, acts, t) && |ev.chunk| <= PIPE_BUFFER
    requires Mine(t, who).At(id).proc.Reading? && Mine(t, who).At(id).sock.Readable()
    ensures Path(s, acts + [PipeRead(who, id, ev.chunk, ev.tail)], DoPipeRead(t, who, id, ev.chunk, ev.tail))
  {
    hide Path;
    Extends(s, acts, t, PipeRead(who, id, ev.chunk, ev.tail));
  }

  lemma SendPath(s: State, acts: seq<Action>, t: State, who: Who, id: Id)
    requires Path(s, acts, t) && Mine(t, who).At(id).proc.Sending?
    ensures var e := Mine(t, who).At(id);
            var cut := SetEnd(t, who, id, e.(proc := Dropping, sock := Shut));
            Path(s, acts + [PipeSend(who, id)],
                 if Mine(t, who).up then
                   SetEnd(Emit(t, who, Data(id, e.proc.chunk)), who, id, e.(proc := AfterBytes(e.proc.tail)))
                 else if who.Server? then EndSession(cut) else cut)
  {
    hide Path;
    Extends(s, acts, t, PipeSend(who, id));
  }

  lemma EndPath(s: State, acts: seq<Action>, t: State, who: Who, id: Id)
    requires Path(s, acts, t) && Mine(t, who).At(id).proc.Ending?
    ensures var e := Mine(t, who).At(id);
            Path(s, acts + [PipeEnd(who, id)],
                 SetEnd(Emit(t, who, Bye(id, e.proc.clean)), who, id,
                        e.(proc := if who.Client? && e.proc.clean then Finishing else Dropping)))
  {
    hide Path;
    Extends(s, acts, t, PipeEnd(who, id));
  }

  // ----- what the loops do, as steps and as frames

  /** The steps of one turn of a reading loop, by frame, lookup and the outcome of a dial or a write. */
  function TurnSteps(who: Who, f: Frame, inMap: bool, dialed: bool, whole: bool, part: nat): seq<Action> {
    [Take(who), Handle(who, dialed)] + Reaction(who, f, inMap, dialed, whole, part)
  }

  function Reaction(who: Who, f: Frame, inMap: bool, dialed: bool, whole: bool, part: nat): seq<Action> {
    match f
    case Open(_, _) => if who.Server? then [] else if dialed then [Connect] else [Reply(who)]
    case Data(_, _) =>
      if !inMap then [] else if whole then [WriteSock(who, true, part)] else [WriteSock(who, false, part), Remove(who)]
    case Eof(_) => if inMap then [ShutSock(who)] else []
    case Close(_) => if inMap then [CloseSock(who), Remove(who)] else []
    case Ping => [Reply(who)]
    case Pong => []
  }

  /** What one `Read` of the pipe's socket returned. */
  datatype Event = Event(chunk: bytes, tail: Tail) {
    /** The pipe stops after this read: the bytes cannot be forwarded, or no more will come. */
    predicate Final(up: bool) {
      !tail.More? || (chunk != [] && !up)
    }
  }

  /** The deferred `dropStream` of a pipe. */
  function DropSteps(who: Who, id: Id, inMap: bool): seq<Action> {
    [PipeDrop(who, id)] + if inMap then [PipeClose(who, id)] else []
  }

  function ReadSteps(who: Who, id: Id, ev: Event): seq<Action> {
    [PipeRead(who, id, ev.chunk, ev.tail)] + if ev.chunk != [] then [PipeSend(who, id)] else []
  }

  function ByeSteps(who: Who, id: Id, clean: bool): seq<Action> {
    [PipeEnd(who, id)] + if who.Client? && clean then [PipeFinish(id)] else []
  }

  /** The last steps of a pipe, if the read `ev` was its last. */
  function LastSteps(who: Who, id: Id, ev: Event, up: bool, inMap: bool): seq<Action> {
    (if ev.chunk != [] && !up then [] else ByeSteps(who, id, ev.tail.AtEof?)) + DropSteps(who, id, inMap)
  }

  /** The steps of a whole pipe over the reads that its socket returns. */
  function PipeSteps(who: Who, id: Id, events: seq<Event>, up: bool, inMap: bool): seq<Action> {
    if events == [] then []
    else
      ReadSteps(who, id, events[0]) +
      if events[0].Final(up) then LastSteps(who, id, events[0], up, inMap)
      else PipeSteps(who, id, events[1..], up, inMap)
  }

  function Bye(id: Id, clean: bool): Frame {
    if clean then Eof(id) else Close(id)
  }

  /** The bytes a pipe reads before it stops. */
  function PipeBytes(events: seq<Event>, up: bool): bytes {
    if events == [] then []
    else events[0].chunk + if events[0].Final(up) then [] else PipeBytes(events[1..], up)
  }

  function EventFrames(id: Id, ev: Event): seq<Frame> {
    (if ev.chunk != [] then [Data(id, ev.chunk)] else []) +
    (match ev.tail case More => [] case AtEof => [Eof(id)] case Broken => [Close(id)])
  }

  /** The frames a pipe puts on a working channel. */
  function PipeFrames(id: Id, events: seq<Event>): seq<Frame> {
    if events == [] then []
    else EventFrames(id, events[0]) + if events[0].Final(true) then [] else PipeFrames(id, events[1..])
  }

  /** What a pipe has done so far: steps, bytes read, frames in flight. */
  datatype Trace = Trace(acts: seq<Action>, got: bytes, out: seq<Frame>)

  /** The trace at the end, if it is `t` now and the socket is yet to return `rest`. */
  ghost function Total(who: Who, id: Id, rest: seq<Event>, up: bool, inMap: bool, t: Trace): Trace {
    Trace(t.acts + PipeSteps(who, id, rest, up, inMap), t.got + PipeBytes(rest, up),
          t.out + if up then PipeFrames(id, rest) else [])
  }

  /** The trace after one more read, including the end of the pipe if it stops there. */
  ghost function After(who: Who, id: Id, ev: Event, up: bool, inMap: bool, t: Trace): Trace {
    Trace(t.acts + (ReadSteps(who, id, ev) + if ev.Final(up) then LastSteps(who, id, ev, up, inMap) else []),
          t.got + ev.chunk, t.out + if up then EventFrames(id, ev) else [])
  }

  lemma TraceStep(who: Who, id: Id, rest: seq<Event>, up: bool, inMap: bool, t: Trace)
    requires rest != []
    ensures var next := After(who, id, rest[0], up, inMap, t);
            Total(who, id, rest, up, inMap, t) ==
            if rest[0].Final(up) then next else Total(who, id, rest[1..], up, inMap, next)
  {
    hide ReadSteps, LastSteps, EventFrames;
    var steps, more := ReadSteps(who, id, rest[0]), PipeSteps(who, id, rest[1..], up, inMap);
    assert steps + [] == steps;
    assert t.acts + (steps + more) == (t.acts + steps) + more;
    assert rest[0].chunk + [] == rest[0].chunk;
    assert t.got + (rest[0].chunk + PipeBytes(rest[1..], up)) == (t.got + rest[0].chunk) + PipeBytes(rest[1..], up);
    var fs := EventFrames(id, rest[0]);
    assert fs + [] == fs && t.out + [] == t.out;
    assert t.out + (fs + PipeFrames(id, rest[1..])) == (t.out + fs) + PipeFrames(id, rest[1..]);
  }

  lemma TraceEnd(who: Who, id: Id, up: bool, inMap: bool, t: Trace)
    ensures Total(who, id, [], up, inMap, t) == t
  {
    assert t.acts + [] == t.acts && t.got + [] == t.got && t.out + [] == t.out;
  }

  class Half {
    const who: Who
    var streams: map<Id, End>
    var up: bool
    var inbox: Link
    var outbox: Link
    var closed: bool
    var finisher: Option<Id>
    var accepts: nat
    var shut: bool
    ghost var other: State

    constructor (who: Who, ghost other: State)
      ensures this.who == who && this.other == other
      ensures streams == map[] && up && inbox == outbox == Link([], [])
      ensures !closed && finisher == None && accepts == 0 && !shut
      ensures other == INIT ==> Whole(Idle) == INIT
    {
      this.who, this.other := who, other;
      streams, up, inbox, outbox, closed, finisher := map[], true, Link([], []), Link([], []), false, None;
      accepts, shut := 0, false;
    }

    /** The whole system, with this side's reader in the given state. */
    ghost function Whole(r: Reader): State
      reads this
    {
      var side := Side(streams, r, up);
      if who.Server? then State(side, other.cl, outbox, inbox, accepts, closed, shut, finisher)
      else State(other.sv, side, inbox, outbox, accepts, closed, shut, finisher)
    }

    function Stream(id: Id): End
      reads this
    {
      if id in streams then streams[id] else BLANK
    }

    lemma Seen(id: Id, r: Reader)
      ensures Mine(Whole(r), who).At(id) == Stream(id) && Mine(Whole(r), who).up == up
    {
    }

    method WriteFrame(f: Frame, ghost r: Reader) returns (ok: bool)
      modifies this`outbox
      ensures ok == up
      ensures Whole(r) == Emit(old(Whole(r)), who, f)
      ensures !up ==> Whole(r) == old(Whole(r))
      ensures outbox == old(outbox).(flight := old(outbox).flight + if up then [f] else [])
    {
      ok := up;
      if up {
        outbox := outbox.(flight := outbox.flight + [f]);
      }
    }

    method SetStream(id: Id, e: End, ghost r: Reader)
      modifies this`streams
      ensures Whole(r) == SetEnd(old(Whole(r)), who, id, e)
      ensures streams == old(streams)[id := e] && Stream(id) == e
    {
      streams := streams[id := e];
    }

    method DropStream(id: Id, ghost r: Reader)
      modifies this`streams
      ensures Whole(r) == SetEnd(old(Whole(r)), who, id, Drop(old(Stream(id))))
      ensures streams == old(streams)[id := Drop(old(Stream(id)))]
    {
      var e := Stream(id);
      if e.inMap {
        e := e.(inMap := false, sock := Shut);
      }
      SetStream(id, e, r);
    }

    /** The loops of `session.close` and `closeAll` over the streams; the latter also empties the map. */
    method CloseSockets(forget: bool)
      modifies this`streams
      ensures streams == if forget then map id | id in old(streams) :: Cut(old(streams)[id]).(inMap := false)
                         else CutAll(old(streams))
    {
      ghost var before := streams;
      var todo := streams.Keys;
      while todo != {}
        invariant todo <= streams.Keys == before.Keys
        invariant forall id | id in before ::
                    streams[id] == if id in todo then before[id]
                                   else if forget then Cut(before[id]).(inMap := false) else Cut(before[id])
      {
        var id :| id in todo;
        var e := streams[id];
        if e.inMap {
          e := e.(sock := Shut);
          if forget {
            e := e.(inMap := false);
          }
        }
        streams := streams[id := e];
        todo := todo - {id};
      }
    }

    method CloseSession(ghost r: Reader)
      requires who.Server?
      modifies this`streams, this`up, this`closed
      ensures Whole(r) == EndSession(old(Whole(r)))
      ensures streams == if old(closed) then old(streams) else CutAll(old(streams))
    {
      if !closed {
        CloseSockets(false);
        up, closed := false, true;
      }
    }

    /** The client's `closeAll`. */
    method CloseAll(ghost r: Reader)
      requires who.Client?
      modifies this`streams, this`shut
      ensures Whole(r) == EndClient(old(Whole(r)))
    {
      CloseSockets(true);
      shut := true;
    }

    // ----- the accept loop

    /** One turn of `serveBrowserListener` after an accept: allocate, register, announce, start the pipe. */
    method ServeBrowser(addr: string, ghost r: Reader) returns (id: Id, ghost acts: seq<Action>)
      requires who.Server? && accepts < ID_SPACE
      modifies this
      ensures Path(old(Whole(r)), acts, Whole(r))
      ensures acts == [Accept(id, addr), Register(id), Announce(id)]
      ensures id == NthId(old(accepts) + 1) && accepts == old(accepts) + 1
      ensures Stream(id).inMap && Stream(id).addr == addr
      ensures Stream(id).proc == if old(up) then Reading else Halted
    {
      hide Path;
      ghost var s := Whole(r);
      id := (accepts + 1) % ID_SPACE;
      accepts := accepts + 1;
      Stay(s);
      Extends(s, [], s, Accept(id, addr));
      acts := [] + [Accept(id, addr)];
      streams := streams[id := BLANK.(proc := Accepted, addr := addr, sock := Live)];
      acts := AnnounceStream(s, acts, id, r);
    }

    method AnnounceStream(ghost s: State, ghost sofar: seq<Action>, id: Id, ghost r: Reader)
      returns (ghost acts: seq<Action>)
      requires who.Server? && Path(s, sofar, Whole(r)) && Stream(id).proc.Accepted?
      modifies this
      ensures Path(s, acts, Whole(r)) && acts == sofar + [Register(id), Announce(id)]
      ensures accepts == old(accepts) && Stream(id).inMap && Stream(id).addr == old(Stream(id).addr)
      ensures Stream(id).proc == if old(up) then Reading else Halted
    {
      hide Path;
      var e := Stream(id);
      Extends(s, sofar, Whole(r), Register(id));
      SetStream(id, e.(proc := Registered, inMap := true), r);
      Extends(s, sofar + [Register(id)], Whole(r), Announce(id));
      acts := sofar + [Register(id)] + [Announce(id)];
      var ok := WriteFrame(Open(id, e.addr), r);
      if ok {
        SetStream(id, e.(proc := Reading, inMap := true), r);
      } else {
        SetStream(id, e.(proc := Halted, inMap := true, sock := Shut), r);
        CloseSession(r);
      }
    }

    // ----- the reading loop

    /** `readFrame` and the switch on the frame type, up to the stream lookup. */
    method Fetch(dialed: bool) returns (frame: Frame, ghost acts: seq<Action>)
      requires inbox.flight != []
      modifies this
      ensures frame == old(inbox.flight)[0] && acts == [Take(who), Handle(who, dialed)]
      ensures inbox == Link(old(inbox.past) + [frame], old(inbox.flight)[1..])
      ensures !(who.Server? && frame.Open?) ==>
                && streams == old(streams) && up == old(up) && outbox == old(outbox)
                && closed == old(closed) && finisher == old(finisher)
                && accepts == old(accepts) && shut == old(shut) && other == old(other)
      ensures var inMap := !frame.Ping? && !frame.Pong? && old(Stream(frame.id)).inMap;
              Path(old(Whole(Idle)), acts, Whole(Dispatch(frame, who, inMap, dialed)))
    {
      hide CanRun, Run, Path;
      ghost var s := Whole(Idle);
      frame := inbox.flight[0];
      inbox := Link(inbox.past + [frame], inbox.flight[1..]);
      Stay(s);
      Extends(s, [], s, Take(who));
      assert Apply(s, Take(who)) == Whole(Handling(frame));
      acts := Switch(s, [] + [Take(who)], frame, dialed);
    }

    method Switch(ghost s: State, ghost sofar: seq<Action>, frame: Frame, dialed: bool)
      returns (ghost acts: seq<Action>)
      requires Path(s, sofar, Whole(Handling(frame)))
      modifies this
      ensures inbox == old(inbox) && acts == sofar + [Handle(who, dialed)]
      ensures !(who.Server? && frame.Open?) ==>
                && streams == old(streams) && up == old(up) && outbox == old(outbox)
                && closed == old(closed) && finisher == old(finisher)
                && accepts == old(accepts) && shut == old(shut) && other == old(other)
      ensures var inMap := !frame.Ping? && !frame.Pong? && old(Stream(frame.id)).inMap;
              Path(s, acts, Whole(Dispatch(frame, who, inMap, dialed)))
    {
      hide Path;
      Extends(s, sofar, Whole(Handling(frame)), Handle(who, dialed));
      acts := sofar + [Handle(who, dialed)];
      if who.Server? && frame.Open? {
        CloseSession(Stopped);
      }
    }

    /**
     * One turn of `readPeerFrames` or `readFrames` on the next frame. `dialed` is the outcome of a dial, `whole`
     * and `part` that of a write to the socket.
     */
    method ReadFrame(dialed: bool, whole: bool, part: nat) returns (ghost acts: seq<Action>, running: bool)
      requires inbox.flight != []
      requires inbox.flight[0].Data? ==> part <= |inbox.flight[0].payload|
      requires inbox.flight[0].Data? ==> Stream(inbox.flight[0].id).sock.Live? || (!whole && part == 0)
      modifies this
      ensures Path(old(Whole(Idle)), acts, Whole(if running then Idle else Stopped))
      ensures var f := old(inbox.flight)[0];
              var inMap := !f.Ping? && !f.Pong? && old(Stream(f.id)).inMap;
              acts == TurnSteps(who, f, inMap, dialed, whole, part)
      ensures inbox == Link(old(inbox.past) + [old(inbox.flight)[0]], old(inbox.flight)[1..])
      ensures running <==> !(who.Server? && old(inbox.flight)[0].Open?)
    {
      hide Path, Whole;
      ghost var s := Whole(Idle);
      running := true;
      var frame;
      frame, acts := Fetch(dialed);
      match frame {
        case Open(id, addr) =>
          if who.Server? {
            running := false;
          } else if dialed {
            acts := OpenStream(s, acts, id, addr);
          } else {
            acts := Answer(s, acts, Frame.Close(id));
          }
        case Data(id, payload) =>
          if Stream(id).inMap {
            acts := Deliver(s, acts, id, payload, whole, part);
          }
        case Eof(id) =>
          if Stream(id).inMap {
            acts := CloseWrite(s, acts, id);
          }
        case Close(id) =>
          if Stream(id).inMap {
            acts := CloseStream(s, acts, id);
          }
        case Ping => acts := Answer(s, acts, Pong);
        case Pong =>
      }
    }

    method OpenStream(ghost s: State, ghost sofar: seq<Action>, id: Id, addr: string) returns (ghost acts: seq<Action>)
      requires who.Client? && Path(s, sofar, Whole(Connecting(id, addr)))
      modifies this`streams
      ensures Path(s, acts, Whole(Idle)) && acts == sofar + [Connect]
      ensures streams == old(streams)[id := BLANK.(proc := Reading, addr := addr, inMap := true, sock := Live)]
    {
      hide Path;
      Extends(s, sofar, Whole(Connecting(id, addr)), Connect);
      acts := sofar + [Connect];
      SetStream(id, BLANK.(proc := Reading, addr := addr, inMap := true, sock := Live), Idle);
    }

    method CloseWrite(ghost s: State, ghost sofar: seq<Action>, id: Id) returns (ghost acts: seq<Action>)
      requires Path(s, sofar, Whole(Shutting(id)))
      modifies this`streams
      ensures Path(s, acts, Whole(Idle)) && acts == sofar + [ShutSock(who)]
      ensures var e := old(Stream(id));
              streams == old(streams)[id := if e.sock.Live? then e.(sock := WriteShut) else e]
    {
      hide Path;
      Extends(s, sofar, Whole(Shutting(id)), ShutSock(who));
      acts := sofar + [ShutSock(who)];
      var e := Stream(id);
      SetStream(id, if e.sock.Live? then e.(sock := WriteShut) else e, Idle);
    }

    method CloseStream(ghost s: State, ghost sofar: seq<Action>, id: Id) returns (ghost acts: seq<Action>)
      requires Path(s, sofar, Whole(Closing(id)))
      modifies this`streams
      ensures Path(s, acts, Whole(Idle)) && acts == sofar + [CloseSock(who), Remove(who)]
      ensures streams == old(streams)[id := old(Stream(id)).(sock := Shut, inMap := false)]
    {
      hide Path;
      Extends(s, sofar, Whole(Closing(id)), CloseSock(who));
      acts := sofar + [CloseSock(who)];
      SetStream(id, Stream(id).(sock := Shut), Removing(id));
      acts := Discard(s, acts, id);
    }

    /** A frame sent by the reading loop itself. */
    method Answer(ghost s: State, ghost sofar: seq<Action>, f: Frame) returns (ghost acts: seq<Action>)
      requires Path(s, sofar, Whole(Replying(f)))
      modifies this`outbox
      ensures Path(s, acts, Whole(Idle)) && acts == sofar + [Reply(who)]
      ensures outbox.flight == old(outbox.flight) + if up then [f] else []
    {
      hide Path;
      Extends(s, sofar, Whole(Replying(f)), Reply(who));
      acts := sofar + [Reply(who)];
      var _ := WriteFrame(f, Idle);
    }

    method Discard(ghost s: State, ghost sofar: seq<Action>, id: Id) returns (ghost acts: seq<Action>)
      requires Path(s, sofar, Whole(Removing(id)))
      modifies this`streams
      ensures Path(s, acts, Whole(Idle)) && acts == sofar + [Remove(who)]
      ensures streams == old(streams)[id := Drop(old(Stream(id)))]
    {
      hide Path;
      Extends(s, sofar, Whole(Removing(id)), Remove(who));
      acts := sofar + [Remove(who)];
      DropStream(id, Idle);
    }

    /** The write to the socket, the request buffer and the detection of the callback. */
    method Deliver(ghost s: State, ghost sofar: seq<Action>, id: Id, payload: bytes, whole: bool, part: nat)
      returns (ghost acts: seq<Action>)
      requires part <= |payload| && (Stream(id).sock.Live? || (!whole && part == 0))
      requires Path(s, sofar, Whole(Writing(id, payload)))
      modifies this`streams
      ensures Path(s, acts, Whole(Idle))
      ensures acts == sofar + if whole then [WriteSock(who, true, part)] else [WriteSock(who, false, part), Remove(who)]
      ensures var e := Wrote(old(Stream(id)), who, payload, whole, part);
              streams == old(streams)[id := if whole then e else Drop(e)]
    {
      hide Path;
      Extends(s, sofar, Whole(Writing(id, payload)), WriteSock(who, whole, part));
      acts := sofar + [WriteSock(who, whole, part)];
      var e := WriteSocket(Stream(id), payload, whole, part);
      SetStream(id, e, if whole then Idle else Removing(id));
      if !whole {
        acts := Discard(s, acts, id);
      }
    }

    method WriteSocket(e0: End, payload: bytes, whole: bool, part: nat) returns (e: End)
      requires part <= |payload|
      ensures e == Wrote(e0, who, payload, whole, part)
    {
      e := e0;
      if whole {
        e := e.(put := e.put + payload);
        if who.Client? && |e.reqBuf| < REQUEST_BUFFER {
          e := e.(reqBuf := e.reqBuf + payload);
        }
      } else {
        e := e.(put := e.put + payload[..part], sock := Shut);
      }
      if who.Client? && !e.oauthDone && LooksLikeCallback(e.reqBuf) {
        e := e.(oauthDone := true);
      }
    }

    // ----- the pipe

    /**
     * `pipeBrowserToPeer` or `pipeLocalToRemote` on the reads that its socket returns. It stops at the first end
     * of file, read error or failed write, drops the stream and, on the client, ends the worker once the
     * callback was answered.
     */
    method Pipe(id: Id, events: seq<Event>, ghost r: Reader) returns (ghost acts: seq<Action>, done: bool)
      requires Stream(id).proc.Reading? && Stream(id).sock.Readable()
      requires forall i | 0 <= i < |events| :: |events[i].chunk| <= PIPE_BUFFER
      modifies this
      ensures Path(old(Whole(r)), acts, Whole(r))
      ensures acts == PipeSteps(who, id, events, old(up), old(Stream(id)).inMap)
      ensures done <==> exists i | 0 <= i < |events| :: events[i].Final(old(up))
      ensures Stream(id).got == old(Stream(id)).got + PipeBytes(events, old(up))
      ensures old(up) ==> outbox == Link(old(outbox.past), old(outbox.flight) + PipeFrames(id, events))
      ensures !old(up) ==> outbox == old(outbox)
      ensures if done then Stream(id).proc.Halted? && !Stream(id).inMap else Stream(id).proc.Reading?
    {
      hide Path, Whole, PipeSteps, PipeBytes, PipeFrames, After;
      ghost var s, inMap, on := Whole(r), Stream(id).inMap, up;
      acts := [];
      assert Path(s, acts, Whole(r)) by { Stay(s); }
      ghost var total := Total(who, id, events, on, inMap, Trace([], Stream(id).got, outbox.flight));
      assert events[0..] == events;
      for i := 0 to |events|
        invariant Path(s, acts, Whole(r)) && up == on && outbox.past == old(outbox.past)
        invariant Stream(id).proc.Reading? && Stream(id).sock.Readable() && Stream(id).inMap == inMap
        invariant forall j | 0 <= j < i :: !events[j].Final(on)
        invariant total == Total(who, id, events[i..], on, inMap, Trace(acts, Stream(id).got, outbox.flight))
      {
        assert events[i..][0] == events[i] && events[i..][1..] == events[i + 1..];
        ghost var before := Trace(acts, Stream(id).got, outbox.flight);
        TraceStep(who, id, events[i..], on, inMap, before);
        acts, done := Step(s, acts, id, events[i], r);
        if done {
          return;
        }
      }
      assert events[|events|..] == [];
      TraceEnd(who, id, on, inMap, Trace(acts, Stream(id).got, outbox.flight));
      done := false;
    }

    /** One turn of the loop, and what follows if it is the last. */
    method Step(ghost s: State, ghost sofar: seq<Action>, id: Id, ev: Event, ghost r: Reader)
      returns (ghost acts: seq<Action>, done: bool)
      requires Path(s, sofar, Whole(r))
      requires Stream(id).proc.Reading? && Stream(id).sock.Readable() && |ev.chunk| <= PIPE_BUFFER
      modifies this
      ensures Path(s, acts, Whole(r)) && (done <==> ev.Final(old(up)))
      ensures Trace(acts, Stream(id).got, outbox.flight) ==
              After(who, id, ev, old(up), old(Stream(id)).inMap, Trace(sofar, old(Stream(id)).got, old(outbox.flight)))
      ensures outbox.past == old(outbox.past)
      ensures done ==> Stream(id).proc.Halted? && !Stream(id).inMap
      ensures !done ==> up == old(up) && Stream(id).proc.Reading? && Stream(id).sock.Readable()
      ensures !done ==> Stream(id).inMap == old(Stream(id)).inMap
    {
      hide Path, Whole, ReadSteps, ByeSteps, DropSteps;
      ghost var on, inMap, out := up, Stream(id).inMap, outbox.flight;
      var failed;
      acts, failed := Turn(s, sofar, id, ev, r);
      done := failed || !ev.tail.More?;
      if done {
        ghost var bye := if failed then [] else ByeSteps(who, id, ev.tail.AtEof?);
        acts := Finish(s, acts, id, failed, r);
        assert bye + DropSteps(who, id, inMap) == LastSteps(who, id, ev, on, inMap);
        assert acts == sofar + ReadSteps(who, id, ev) + bye + DropSteps(who, id, inMap);
        assert acts == sofar + (ReadSteps(who, id, ev) + LastSteps(who, id, ev, on, inMap));
      } else {
        assert acts == sofar + (ReadSteps(who, id, ev) + []);
      }
      assert outbox.flight == out + if on then EventFrames(id, ev) else [];
    }

    /** One read, and the data frame for it. */
    method Turn(ghost s: State, ghost sofar: seq<Action>, id: Id, ev: Event, ghost r: Reader)
      returns (ghost acts: seq<Action>, failed: bool)
      requires Path(s, sofar, Whole(r))
      requires Stream(id).proc.Reading? && Stream(id).sock.Readable() && |ev.chunk| <= PIPE_BUFFER
      modifies this`streams, this`up, this`outbox, this`closed
      ensures Path(s, acts, Whole(r)) && acts == sofar + ReadSteps(who, id, ev)
      ensures failed <==> ev.chunk != [] && !old(up)
      ensures var e := old(Stream(id)).(got := old(Stream(id)).got + ev.chunk);
              Stream(id) == if failed then e.(proc := Dropping, sock := Shut) else e.(proc := AfterBytes(ev.tail))
      ensures !failed ==> up == old(up)
      ensures outbox == old(outbox).(flight := old(outbox).flight +
                                               if ev.chunk != [] && old(up) then [Data(id, ev.chunk)] else [])
    {
      hide Path, Whole, AfterBytes;
      acts := ReadSocket(s, sofar, id, ev, r);
      failed := false;
      if ev.chunk != [] {
        acts, failed := Forward(s, acts, id, r);
      }
    }

    method ReadSocket(ghost s: State, ghost sofar: seq<Action>, id: Id, ev: Event, ghost r: Reader)
      returns (ghost acts: seq<Action>)
      requires Path(s, sofar, Whole(r))
      requires Stream(id).proc.Reading? && Stream(id).sock.Readable() && |ev.chunk| <= PIPE_BUFFER
      modifies this`streams
      ensures Path(s, acts, Whole(r)) && acts == sofar + [PipeRead(who, id, ev.chunk, ev.tail)]
      ensures var e := old(Stream(id));
              Stream(id) == e.(got := e.got + ev.chunk,
                               proc := if ev.chunk != [] then Sending(ev.chunk, ev.tail) else AfterBytes(ev.tail))
    {
      hide Path, Whole, Mine, SetEnd, AfterBytes;
      Seen(id, r);
      ReadPath(s, sofar, Whole(r), who, id, ev);
      acts := sofar + [PipeRead(who, id, ev.chunk, ev.tail)];
      var e := Stream(id);
      if ev.chunk != [] {
        SetStream(id, e.(got := e.got + ev.chunk, proc := Sending(ev.chunk, ev.tail)), r);
      } else {
        SetStream(id, e.(got := e.got + ev.chunk, proc := AfterBytes(ev.tail)), r);
      }
    }

    method Forward(ghost s: State, ghost sofar: seq<Action>, id: Id, ghost r: Reader)
      returns (ghost acts: seq<Action>, failed: bool)
      requires Path(s, sofar, Whole(r)) && Stream(id).proc.Sending? && Stream(id).sock.Readable()
      modifies this`streams, this`up, this`outbox, this`closed
      ensures Path(s, acts, Whole(r)) && acts == sofar + [PipeSend(who, id)]
      ensures failed == !old(up) && (!failed ==> up)
      ensures var e := old(Stream(id));
              Stream(id) == if failed then e.(proc := Dropping, sock := Shut) else e.(proc := AfterBytes(e.proc.tail))
      ensures outbox == old(outbox).(flight := old(outbox).flight +
                                               if old(up) then [Data(id, old(Stream(id)).proc.chunk)] else [])
    {
      hide Path, Whole, Mine, SetEnd, Emit, EndSession, AfterBytes;
      Seen(id, r);
      SendPath(s, sofar, Whole(r), who, id);
      acts := sofar + [PipeSend(who, id)];
      var e := Stream(id);
      var ok := WriteFrame(Data(id, e.proc.chunk), r);
      failed := !ok;
      if ok {
        SetStream(id, e.(proc := AfterBytes(e.proc.tail)), r);
      } else {
        Abandon(id, r);
      }
    }

    /** A failed forward closes the stream, and on the server the session. */
    method Abandon(id: Id, ghost r: Reader)
      modifies this`streams, this`up, this`closed
      ensures Stream(id) == old(Stream(id)).(proc := Dropping, sock := Shut)
      ensures var cut := SetEnd(old(Whole(r)), who, id, old(Stream(id)).(proc := Dropping, sock := Shut));
              Whole(r) == if who.Server? then EndSession(cut) else cut
    {
      hide Whole, SetEnd, EndSession;
      SetStream(id, Stream(id).(proc := Dropping, sock := Shut), r);
      if who.Server? {
        CloseSession(r);
      }
    }

    /** The last frame, `finish`, and the deferred `dropStream`. */
    method Finish(ghost s: State, ghost sofar: seq<Action>, id: Id, failed: bool, ghost r: Reader)
      returns (ghost acts: seq<Action>)
      requires Path(s, sofar, Whole(r))
      requires if failed then Stream(id).proc.Dropping? else Stream(id).proc.Ending?
      modifies this`streams, this`up, this`outbox, this`finisher
      ensures Path(s, acts, Whole(r))
      ensures var e := old(Stream(id));
              acts == sofar + (if failed then [] else ByeSteps(who, id, e.proc.clean)) + DropSteps(who, id, e.inMap)
      ensures Stream(id).proc.Halted? && !Stream(id).inMap && Stream(id).got == old(Stream(id)).got
      ensures outbox == old(outbox).(flight := old(outbox).flight +
                                               if failed || !old(up) then [] else [Bye(id, old(Stream(id)).proc.clean)])
    {
      hide Path, Whole;
      acts := sofar;
      if !failed {
        acts := SayGoodbye(s, acts, id, r);
      }
      acts := Deferred(s, acts, id, r);
    }

    /** The deferred `dropStream`: out of the map first, then the socket is closed. */
    method Deferred(ghost s: State, ghost sofar: seq<Action>, id: Id, ghost r: Reader)
      returns (ghost acts: seq<Action>)
      requires Path(s, sofar, Whole(r)) && Stream(id).proc.Dropping?
      modifies this`streams
      ensures Path(s, acts, Whole(r)) && acts == sofar + DropSteps(who, id, old(Stream(id)).inMap)
      ensures var e := old(Stream(id));
              Stream(id) == if e.inMap then e.(proc := Halted, inMap := false, sock := Shut) else e.(proc := Halted)
    {
      hide Path, Whole, Mine, SetEnd;
      Seen(id, r);
      Extends(s, sofar, Whole(r), PipeDrop(who, id));
      acts := sofar + [PipeDrop(who, id)];
      var e := Stream(id);
      if e.inMap {
        SetStream(id, e.(inMap := false, proc := Leaving), r);
        acts := CloseSocket(s, acts, id, r);
      } else {
        SetStream(id, e.(proc := Halted), r);
      }
    }

    method CloseSocket(ghost s: State, ghost sofar: seq<Action>, id: Id, ghost r: Reader)
      returns (ghost acts: seq<Action>)
      requires Path(s, sofar, Whole(r)) && Stream(id).proc.Leaving?
      modifies this`streams
      ensures Path(s, acts, Whole(r)) && acts == sofar + [PipeClose(who, id)]
      ensures Stream(id) == old(Stream(id)).(proc := Halted, sock := Shut)
    {
      hide Path, Whole, Mine, SetEnd;
      Seen(id, r);
      Extends(s, sofar, Whole(r), PipeClose(who, id));
      acts := sofar + [PipeClose(who, id)];
      SetStream(id, Stream(id).(sock := Shut, proc := Halted), r);
    }

    /** The terminal frame; on the client, a clean end may end the worker. */
    method SayGoodbye(ghost s: State, ghost sofar: seq<Action>, id: Id, ghost r: Reader)
      returns (ghost acts: seq<Action>)
      requires Path(s, sofar, Whole(r)) && Stream(id).proc.Ending?
      modifies this`streams, this`up, this`outbox, this`finisher
      ensures Path(s, acts, Whole(r)) && acts == sofar + ByeSteps(who, id, old(Stream(id)).proc.clean)
      ensures Stream(id) == old(Stream(id)).(proc := Dropping)
      ensures outbox == old(outbox).(flight := old(outbox).flight +
                                               if old(up) then [Bye(id, old(Stream(id)).proc.clean)] else [])
      ensures var e := old(Stream(id));
              var ends := who.Client? && e.proc.clean && e.oauthDone && e.got != [] && old(finisher).None?;
              finisher == (if ends then Some(id) else old(finisher)) && up == (old(up) && !ends)
    {
      hide Path, Whole, Bye;
      var clean := Stream(id).proc.clean;
      acts := EndStream(s, sofar, id, r);
      if who.Client? && clean {
        acts := EndWorker(s, acts, id, r);
      }
    }

    method EndStream(ghost s: State, ghost sofar: seq<Action>, id: Id, ghost r: Reader)
      returns (ghost acts: seq<Action>)
      requires Path(s, sofar, Whole(r)) && Stream(id).proc.Ending?
      modifies this`streams, this`outbox
      ensures Path(s, acts, Whole(r)) && acts == sofar + [PipeEnd(who, id)]
      ensures var e := old(Stream(id));
              Stream(id) == e.(proc := if who.Client? && e.proc.clean then Finishing else Dropping)
      ensures outbox == old(outbox).(flight := old(outbox).flight +
                                               if up then [Bye(id, old(Stream(id)).proc.clean)] else [])
    {
      hide Path, Whole, Mine, SetEnd, Emit, Bye;
      Seen(id, r);
      EndPath(s, sofar, Whole(r), who, id);
      acts := sofar + [PipeEnd(who, id)];
      var e := Stream(id);
      var _ := WriteFrame(Bye(id, e.proc.clean), r);
      SetStream(id, e.(proc := if who.Client? && e.proc.clean then Finishing else Dropping), r);
    }

    /** `finish`, once the callback was answered: it takes effect once, and then the endpoint is closed. */
    method EndWorker(ghost s: State, ghost sofar: seq<Action>, id: Id, ghost r: Reader)
      returns (ghost acts: seq<Action>)
      requires who.Client? && Path(s, sofar, Whole(r)) && Stream(id).proc.Finishing?
      modifies this`streams, this`up, this`finisher
      ensures Path(s, acts, Whole(r)) && acts == sofar + [PipeFinish(id)]
      ensures Stream(id) == old(Stream(id)).(proc := Dropping)
      ensures var ends := old(Stream(id)).oauthDone && old(Stream(id)).got != [] && old(finisher).None?;
              finisher == (if ends then Some(id) else old(finisher)) && up == (old(up) && !ends)
    {
      hide Path;
      Extends(s, sofar, Whole(r), PipeFinish(id));
      acts := sofar + [PipeFinish(id)];
      var e := Stream(id);
      SetStream(id, e.(proc := Dropping), r);
      if e.oauthDone && e.got != [] {
        if finisher.None? {
          finisher, up := Some(id), false;
        }
      }
    }
  }
}
