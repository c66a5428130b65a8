/**
 * Left alone, the tunnel comes to rest: once the sockets deliver no new bytes, no browser connects and
 * the keepalive is silent, the two sides can only take finitely many more steps, however they interleave.
 */
module TunnelTermination {
  import opened Protocol
  import opened TunnelTheorems

  /** Not a new connection, not a keepalive tick, not a read that brings bytes or nothing at all. */
  predicate Quiet(a: Action) {
    && !a.Accept?
    && !a.Tick?
    && (a.PipeRead? ==> a.chunk == [] && !a.tail.More?)
  }

  // ----- how many steps each part of the state can still cause

  function FrameWork(f: Frame): nat {
    match f
    case Open(_, _) => 12
    case Ping => 5
    case Pong => 2
    case _ => 4
  }

  function ReaderWork(r: Reader): nat {
    match r
    case Stopped => 0
    case Idle => 1
    case Removing(_) => 2
    case Writing(_, _) => 3
    case Shutting(_) => 3
    case Closing(_) => 3
    case Connecting(_, _) => 11
    case Handling(f) => FrameWork(f)
    case Replying(f) => FrameWork(f) + 2
  }

  function ProcWork(p: Proc): nat {
    match p
    case Absent => 0
    case Halted => 0
    case Leaving => 1
    case Dropping => 2
    case Finishing => 3
    case Ending(_) => 8
    case Reading => 9
    case Sending(_, _) => 14
    case Registered => 22
    case Accepted => 23
  }

  function FlightWork(fs: seq<Frame>): nat {
    if fs == [] then 0 else FrameWork(fs[0]) + FlightWork(fs[1..])
  }

  /** The work of the goroutines of all streams with an id below `n`. */
  function PipeWork(side: Side, n: nat): nat
    requires n <= ID_SPACE
  {
    if n == 0 then 0 else PipeWork(side, n - 1) + ProcWork(side.At(n - 1).proc)
  }

  function SideWork(side: Side): nat {
    PipeWork(side, ID_SPACE) + ReaderWork(side.reader) + if side.up then 1 else 0
  }

  function Work(s: State): nat {
    SideWork(s.sv) + SideWork(s.cl) + FlightWork(s.s2c.flight) + FlightWork(s.c2s.flight)
    + (if s.closed then 0 else 1) + (if s.shut then 0 else 1)
  }

  // ----- sums

  lemma {:induction false} FlightAppend(fs: seq<Frame>, f: Frame)
    ensures FlightWork(fs + [f]) == FlightWork(fs) + FrameWork(f)
  {
    if fs != [] {
      FlightAppend(fs[1..], f);
      assert (fs + [f])[1..] == fs[1..] + [f];
    }
  }

  lemma {:induction false} PipeWorkSame(a: Side, b: Side, n: nat)
    requires n <= ID_SPACE
    requires forall id: Id :: a.At(id).proc == b.At(id).proc
    ensures PipeWork(a, n) == PipeWork(b, n)
  {
    if n > 0 {
      PipeWorkSame(a, b, n - 1);
    }
  }

  /** Changing one end changes the sum by the change of that end. */
  lemma {:induction false} PipeWorkUpdate(side: Side, id: Id, e: End, n: nat)
    requires n <= ID_SPACE
    ensures PipeWork(side.(ends := side.ends[id := e]), n) ==
            PipeWork(side, n) + if id < n then ProcWork(e.proc) - ProcWork(side.At(id).proc) else 0
  {
    if n > 0 {
      PipeWorkUpdate(side, id, e, n - 1);
    }
  }

  lemma SetEndWork(s: State, who: Who, id: Id, e: End)
    ensures Work(SetEnd(s, who, id, e)) == Work(s) - ProcWork(Mine(s, who).At(id).proc) + ProcWork(e.proc)
  {
    hide PipeWork, FlightWork, ProcWork;
    PipeWorkUpdate(Mine(s, who), id, e, ID_SPACE);
  }

  lemma SetReaderWork(s: State, who: Who, r: Reader)
    ensures Work(SetReader(s, who, r)) == Work(s) - ReaderWork(Mine(s, who).reader) + ReaderWork(r)
  {
    hide PipeWork, FlightWork, ReaderWork;
    PipeWorkSame(Mine(s, who), Mine(s, who).(reader := r), ID_SPACE);
  }

  lemma EmitWork(s: State, who: Who, f: Frame)
    ensures Work(s) <= Work(Emit(s, who, f)) <= Work(s) + FrameWork(f)
  {
    hide PipeWork, FlightWork, FrameWork, ReaderWork;
    FlightAppend(s.s2c.flight, f);
    FlightAppend(s.c2s.flight, f);
  }

  lemma DownWork(s: State, who: Who)
    requires Mine(s, who).up
    ensures Work(SetSide(s, who, Mine(s, who).(up := false))) < Work(s)
  {
    hide PipeWork, FlightWork, ReaderWork;
    PipeWorkSame(Mine(s, who), Mine(s, who).(up := false), ID_SPACE);
  }

  lemma EndSessionWork(s: State)
    ensures Work(EndSession(s)) <= Work(s)
    ensures !s.closed ==> Work(EndSession(s)) < Work(s)
    ensures EndSession(s).sv.reader == s.sv.reader
  {
    hide PipeWork, FlightWork, ReaderWork;
    PipeWorkSame(s.sv, EndSession(s).sv, ID_SPACE);
  }

  lemma EndClientWork(s: State)
    ensures !s.shut ==> Work(EndClient(s)) < Work(s)
  {
    hide PipeWork, FlightWork, ReaderWork;
    PipeWorkSame(s.cl, EndClient(s).cl, ID_SPACE);
  }

  // ----- every quiet step uses up work

  lemma AnnounceWork(s: State, id: Id)
    requires Enabled(s, Announce(id))
    ensures Work(DoAnnounce(s, id)) < Work(s)
  {
    hide Work;
    var e := s.sv.At(id);
    var f := Open(id, e.addr);
    EmitWork(s, Server, f);
    SetEndWork(Emit(s, Server, f), Server, id, e.(proc := Reading));
    var cut := SetEnd(s, Server, id, e.(proc := Halted, sock := Shut));
    SetEndWork(s, Server, id, e.(proc := Halted, sock := Shut));
    EndSessionWork(cut);
  }

  lemma PipeSendWork(s: State, who: Who, id: Id)
    requires Enabled(s, PipeSend(who, id))
    ensures Work(DoPipeSend(s, who, id)) < Work(s)
  {
    hide Work;
    var e := Mine(s, who).At(id);
    var f := Data(id, e.proc.chunk);
    EmitWork(s, who, f);
    SetEndWork(Emit(s, who, f), who, id, e.(proc := AfterBytes(e.proc.tail)));
    var cut := SetEnd(s, who, id, e.(proc := Dropping, sock := Shut));
    SetEndWork(s, who, id, e.(proc := Dropping, sock := Shut));
    EndSessionWork(cut);
  }

  lemma PipeEndWork(s: State, who: Who, id: Id)
    requires Enabled(s, PipeEnd(who, id))
    ensures Work(DoPipeEnd(s, who, id)) < Work(s)
  {
    hide Work;
    var e := Mine(s, who).At(id);
    var f := if e.proc.clean then Eof(id) else Close(id);
    var t := DoPipeEnd(s, who, id);
    EmitWork(s, who, f);
    SetEndWork(Emit(s, who, f), who, id, Mine(t, who).At(id));
  }

  lemma PipeFinishWork(s: State, id: Id)
    requires Enabled(s, PipeFinish(id))
    ensures Work(DoPipeFinish(s, id)) < Work(s)
  {
    var t := SetEnd(s, Client, id, s.cl.At(id).(proc := Dropping));
    SetEndWork(s, Client, id, s.cl.At(id).(proc := Dropping));
    hide PipeWork, FlightWork, ReaderWork;
    PipeWorkSame(t.cl, t.cl.(up := false), ID_SPACE);
  }

  lemma TakeWork(s: State, who: Who)
    requires Enabled(s, Take(who))
    ensures Work(DoTake(s, who)) < Work(s)
  {
    var l := Incoming(s, who);
    var rest := Link(l.past + [l.flight[0]], l.flight[1..]);
    var t := if who.Server? then s.(c2s := rest) else s.(s2c := rest);
    assert Work(t) == Work(s) - FrameWork(l.flight[0]) by { hide PipeWork, ReaderWork; }
    hide Work;
    SetReaderWork(t, who, Handling(l.flight[0]));
  }

  lemma HandleWork(s: State, who: Who, dialed: bool)
    requires Enabled(s, Handle(who, dialed))
    ensures Work(DoHandle(s, who, dialed)) < Work(s)
  {
    hide Work;
    var f := Mine(s, who).reader.frame;
    var t := if who.Server? && f.Open? then EndSession(s) else s;
    EndSessionWork(s);
    SetReaderWork(t, who, Mine(DoHandle(s, who, dialed), who).reader);
  }

  lemma ReaderEndWork(s: State, who: Who, id: Id, e: End, r: Reader)
    requires ProcWork(e.proc) <= ProcWork(Mine(s, who).At(id).proc) + 9
    requires ReaderWork(r) + (if e.proc == Mine(s, who).At(id).proc then 0 else 9) < ReaderWork(Mine(s, who).reader)
    ensures Work(SetReader(SetEnd(s, who, id, e), who, r)) < Work(s)
  {
    hide Work, ReaderWork, ProcWork;
    SetEndWork(s, who, id, e);
    SetReaderWork(SetEnd(s, who, id, e), who, r);
  }

  lemma ReplyWork(s: State, who: Who)
    requires Enabled(s, Reply(who))
    ensures Work(DoReply(s, who)) < Work(s)
  {
    hide Work;
    var f := Mine(s, who).reader.frame;
    EmitWork(s, who, f);
    SetReaderWork(Emit(s, who, f), who, Idle);
  }

  lemma ReadErrorWork(s: State, who: Who)
    requires Enabled(s, ReadError(who))
    ensures Work(DoReadError(s, who)) < Work(s)
  {
    hide Work;
    EndSessionWork(s);
    SetReaderWork(if who.Server? then EndSession(s) else s, who, Stopped);
  }

  lemma QuietStepUsesWork(s: State, a: Action)
    requires Enabled(s, a) && Quiet(a)
    ensures Work(Apply(s, a)) < Work(s)
  {
    hide Work;
    match a
    case Register(_) => PipeStepWork(s, a);
    case PipeRead(_, _, _, _) => PipeStepWork(s, a);
    case PipeDrop(_, _) => PipeStepWork(s, a);
    case PipeClose(_, _) => PipeStepWork(s, a);
    case Connect => SocketStepWork(s, a);
    case ShutSock(_) => SocketStepWork(s, a);
    case CloseSock(_) => SocketStepWork(s, a);
    case Remove(_) => SocketStepWork(s, a);
    case Announce(id) => AnnounceWork(s, id);
    case PipeSend(who, id) => PipeSendWork(s, who, id);
    case PipeEnd(who, id) => PipeEndWork(s, who, id);
    case PipeFinish(id) => PipeFinishWork(s, id);
    case Take(who) => TakeWork(s, who);
    case Handle(who, dialed) => HandleWork(s, who, dialed);
    case WriteSock(who, whole, part) => WriteWork(s, who, whole, part);
    case Reply(who) => ReplyWork(s, who);
    case ReadError(who) => ReadErrorWork(s, who);
    case LinkFail(who) => DownWork(s, who);
    case SessionClose => EndSessionWork(s);
    case CloseAll => EndClientWork(s);
  }

  /** Steps that change one end and nothing else. */
  lemma PipeStepWork(s: State, a: Action)
    requires Enabled(s, a) && Quiet(a) && (a.Register? || a.PipeRead? || a.PipeDrop? || a.PipeClose?)
    ensures Work(Apply(s, a)) < Work(s)
  {
    hide Work;
    match a
    case Register(id) => SetEndWork(s, Server, id, s.sv.At(id).(proc := Registered, inMap := true));
    case PipeRead(who, id, chunk, tail) =>
      SetEndWork(s, who, id, Mine(DoPipeRead(s, who, id, chunk, tail), who).At(id));
    case PipeDrop(who, id) => SetEndWork(s, who, id, Mine(DoPipeDrop(s, who, id), who).At(id));
    case PipeClose(who, id) => SetEndWork(s, who, id, Mine(s, who).At(id).(sock := Shut, proc := Halted));
  }

  /** Steps of a reader on the socket or the map entry of the stream in its hand. */
  lemma SocketStepWork(s: State, a: Action)
    requires Enabled(s, a) && (a.Connect? || a.ShutSock? || a.CloseSock? || a.Remove?)
    ensures Work(Apply(s, a)) < Work(s)
  {
    hide Work;
    match a
    case Connect => ReaderEndWork(s, Client, s.cl.reader.id, DoConnect(s).cl.At(s.cl.reader.id), Idle);
    case ShutSock(who) =>
      var id := Mine(s, who).reader.id;
      ReaderEndWork(s, who, id, Mine(DoShutSock(s, who), who).At(id), Idle);
    case CloseSock(who) =>
      var id := Mine(s, who).reader.id;
      ReaderEndWork(s, who, id, Mine(s, who).At(id).(sock := Shut), Removing(id));
    case Remove(who) =>
      var id := Mine(s, who).reader.id;
      ReaderEndWork(s, who, id, Drop(Mine(s, who).At(id)), Idle);
  }

  lemma WriteWork(s: State, who: Who, whole: bool, part: nat)
    requires Enabled(s, WriteSock(who, whole, part))
    ensures Work(DoWriteSock(s, who, whole, part)) < Work(s)
  {
    hide Work;
    var r := Mine(s, who).reader;
    ReaderEndWork(s, who, r.id, Wrote(Mine(s, who).At(r.id), who, r.payload, whole, part),
                  if whole then Idle else Removing(r.id));
  }

  /** Close answered by Close, Ping by Pong, a failed dial by Close: none of it goes on for ever. */
  lemma {:induction false} QuietRunsEnd(s: State, acts: seq<Action>)
    requires CanRun(s, acts)
    requires forall i | 0 <= i < |acts| :: Quiet(acts[i])
    ensures |acts| <= Work(s)
    decreases |acts|
  {
    hide Work, Apply;
    if acts != [] {
      QuietStepUsesWork(s, acts[0]);
      QuietRunsEnd(Apply(s, acts[0]), acts[1..]);
    }
  }

  // ----- left to themselves, the two sides come to rest

  /** A run of steps that need nothing from outside. */
  predicate OwnRun(s: State, acts: seq<Action>)
    decreases |acts|
  {
    acts == [] || (Enabled(s, acts[0]) && Own(s, acts[0]) && OwnRun(Apply(s, acts[0]), acts[1..]))
  }

  lemma OwnStep(s: State, a: Action)
    requires Enabled(s, a) && Own(s, a)
    ensures Quiet(a) && (s.closed ==> Apply(s, a).closed)
  {
  }

  lemma {:induction false} OwnRunIsRun(s: State, acts: seq<Action>)
    requires OwnRun(s, acts) && Reached(s)
    ensures CanRun(s, acts) && Reached(Run(s, acts)) && |acts| <= Work(s)
    ensures s.closed ==> Run(s, acts).closed
    decreases |acts|
  {
    hide Work, Apply, Enabled, Own, Reached;
    if acts != [] {
      OwnStep(s, acts[0]);
      QuietStepUsesWork(s, acts[0]);
      Then(s, acts[0]);
      OwnRunIsRun(Apply(s, acts[0]), acts[1..]);
    }
  }

  /** From every state some run of own steps leads to rest. */
  lemma {:induction false} RestIsReached(s: State) returns (acts: seq<Action>)
    ensures OwnRun(s, acts) && CanRun(s, acts) && AtRest(Run(s, acts))
    decreases Work(s)
  {
    hide Work, Apply, Enabled, Own;
    if AtRest(s) {
      acts := [];
    } else {
      var a: Action :| Own(s, a) && Enabled(s, a);
      OwnStep(s, a);
      QuietStepUsesWork(s, a);
      var rest := RestIsReached(Apply(s, a));
      acts := [a] + rest;
      assert acts[1..] == rest;
    }
  }

  /**
   * After a close, whatever raced with it: every run of own steps is bounded, and where it can go no further every
   * browser socket that was ever accepted is closed.
   */
  lemma ClosedSessionEnds(s: State, acts: seq<Action>)
    requires Reached(s) && s.closed && OwnRun(s, acts)
    ensures |acts| <= Work(s) && CanRun(s, acts)
    ensures AtRest(Run(s, acts)) ==>
              forall id: Id :: Run(s, acts).sv.At(id).proc.Absent? || Run(s, acts).sv.At(id).sock.Shut?
  {
    hide Work, Apply, Enabled, Own, Reached, AtRest;
    OwnRunIsRun(s, acts);
    if AtRest(Run(s, acts)) {
      forall id: Id ensures Run(s, acts).sv.At(id).proc.Absent? || Run(s, acts).sv.At(id).sock.Shut? {
        ClosedSessionSettles(Run(s, acts), id);
      }
    }
  }
}
