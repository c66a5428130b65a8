/** How a session ends: what closes it, what a dead connection leads to, and that keepalive pings are answered. */
module TunnelClosing {
  import opened Callback
  import opened Protocol
  import opened ProtocolInvariant
  import opened TunnelTheorems
  import opened TunnelTermination

  // ----- what closes the session

  /** A write of the server that the dead endpoint refuses. */
  predicate FailedWrite(s: State, a: Action) {
    !s.sv.up && (a.Announce? || (a.PipeSend? && a.who.Server?))
  }

  /** A frame type that the server does not know. */
  predicate ForeignFrame(s: State, a: Action) {
    a.Handle? && a.who.Server? && s.sv.reader.Handling? && s.sv.reader.frame.Open?
  }

  /**
   * The session is closed by its timers, by a failed read of the peer, by a frame type it does not know and by a
   * failed write to the peer, and by nothing else; a close closes every socket in the map.
   */
  lemma ClosedExactlyBy(s: State, a: Action)
    requires !s.closed && Enabled(s, a)
    ensures Apply(s, a).closed <==>
            a.SessionClose? || (a.ReadError? && a.who.Server?) || ForeignFrame(s, a) || FailedWrite(s, a)
    ensures Apply(s, a).closed ==> !Apply(s, a).sv.up
    ensures Apply(s, a).closed ==>
              forall id: Id | Apply(s, a).sv.At(id).inMap :: Apply(s, a).sv.At(id).sock.Shut?
  {
    hide Wrote, LooksLikeCallback, Drop, Dispatch, AfterBytes;
  }

  /** The stream of a failed write is closed as well, in the map or not. */
  lemma FailedWriteCloses(s: State, a: Action)
    requires Enabled(s, a) && FailedWrite(s, a)
    ensures Apply(s, a).closed && Apply(s, a).sv.At(a.id).sock.Shut?
    ensures Apply(s, a).sv.At(a.id).proc.Over()
  {
  }

  /** `closeAll` leaves no stream in the map, and no open socket but those of pipes in the middle of `dropStream`. */
  lemma ClientCloseEmpties(s: State, id: Id)
    requires Reached(s) && Enabled(s, CloseAll)
    ensures var e := Apply(s, CloseAll).cl.At(id);
            !e.inMap && (e.proc.Absent? || e.sock.Shut? || Enabled(Apply(s, CloseAll), PipeClose(Client, id)))
  {
    hide StreamInv, Reached;
    ReachedView(s, id);
    ClientOwned(ViewOf(s, id));
  }

  lemma ClientOwned(v: View)
    requires StreamInv(v)
    ensures v.cl.proc.Absent? || v.cl.inMap || v.cl.sock.Shut? || v.cl.proc.Leaving?
    ensures v.cl.proc.Absent? ==> v.cl == BLANK
  {
    hide ServerSends, Stage, ClientReceives, ServerReceives, ServerOwns, Detects;
  }

  /** A callback that was seen and answered ends the worker, which closes the endpoint. */
  lemma AnsweredCallbackFinishes(s: State, id: Id)
    requires Reached(s) && Enabled(s, PipeFinish(id)) && s.cl.At(id).oauthDone && s.cl.At(id).got != []
    ensures Apply(s, PipeFinish(id)).finisher.Some? && !Apply(s, PipeFinish(id)).cl.up
  {
    hide Reached, Apply, Enabled;
    Then(s, PipeFinish(id));
    var t := Apply(s, PipeFinish(id));
    assert t.finisher.Some? by { FinishTakes(s, id); }
    FinishedAfterAnswer(t);
  }

  lemma FinishTakes(s: State, id: Id)
    requires Enabled(s, PipeFinish(id)) && s.cl.At(id).oauthDone && s.cl.At(id).got != []
    ensures Apply(s, PipeFinish(id)).finisher.Some?
  {
  }

  // ----- a dead connection

  /** The server stops reading its peer only with the session closed. */
  predicate StoppedClosed(s: State) {
    s.sv.reader.Stopped? ==> s.closed
  }

  lemma StoppedClosedStep(s: State, a: Action)
    requires StoppedClosed(s) && Enabled(s, a)
    ensures StoppedClosed(Apply(s, a))
  {
    hide Wrote, LooksLikeCallback, Drop, AfterBytes;
  }

  lemma {:induction false} StoppedClosedRun(s: State, acts: seq<Action>)
    requires StoppedClosed(s) && CanRun(s, acts)
    ensures StoppedClosed(Run(s, acts))
    decreases |acts|
  {
    hide Apply, Enabled, StoppedClosed;
    if acts != [] {
      StoppedClosedStep(s, acts[0]);
      StoppedClosedRun(Apply(s, acts[0]), acts[1..]);
    }
  }

  lemma ReachedStopped(s: State)
    requires Reached(s)
    ensures StoppedClosed(s)
  {
    hide CanRun, Run;
    var acts :| CanRun(INIT, acts) && Run(INIT, acts) == s;
    StoppedClosedRun(INIT, acts);
  }

  predicate Dead(s: State) {
    !(s.sv.up && s.cl.up)
  }

  /** The steps the two sides take by themselves once the connection may be dead. */
  predicate Alone(s: State, a: Action) {
    Own(s, a) || a.ReadError?
  }

  predicate AloneRun(s: State, acts: seq<Action>)
    decreases |acts|
  {
    acts == [] || (Enabled(s, acts[0]) && Alone(s, acts[0]) && AloneRun(Apply(s, acts[0]), acts[1..]))
  }

  ghost predicate Finished(s: State) {
    forall a: Action | Alone(s, a) :: !Enabled(s, a)
  }

  lemma AloneStep(s: State, a: Action)
    requires Enabled(s, a) && Alone(s, a)
    ensures Quiet(a) && (Dead(s) ==> Dead(Apply(s, a))) && (s.closed ==> Apply(s, a).closed)
  {
    hide Apply;
    NeverUpAgain(s, a);
    NeverOpenAgain(s, a);
  }

  lemma NeverUpAgain(s: State, a: Action)
    requires Enabled(s, a)
    ensures (Apply(s, a).sv.up ==> s.sv.up) && (Apply(s, a).cl.up ==> s.cl.up)
  {
    hide Wrote, LooksLikeCallback, Drop, Dispatch, AfterBytes, CutAll;
  }

  lemma NeverOpenAgain(s: State, a: Action)
    requires Enabled(s, a)
    ensures s.closed ==> Apply(s, a).closed
  {
    hide Wrote, LooksLikeCallback, Drop, Dispatch, AfterBytes, CutAll;
  }

  lemma {:induction false} AloneRunIsRun(s: State, acts: seq<Action>)
    requires AloneRun(s, acts) && Reached(s)
    ensures CanRun(s, acts) && Reached(Run(s, acts)) && |acts| <= Work(s)
    ensures Dead(s) ==> Dead(Run(s, acts))
    ensures s.closed ==> Run(s, acts).closed
    decreases |acts|
  {
    hide Work, Apply, Enabled, Alone, Reached, Dead;
    if acts != [] {
      AloneStep(s, acts[0]);
      QuietStepUsesWork(s, acts[0]);
      Then(s, acts[0]);
      AloneRunIsRun(Apply(s, acts[0]), acts[1..]);
    }
  }

  lemma FinishedRests(s: State)
    requires Finished(s)
    ensures AtRest(s) && !Enabled(s, ReadError(Server)) && !Enabled(s, ReadError(Client))
  {
    hide Enabled, Own;
    assert Alone(s, ReadError(Server)) && Alone(s, ReadError(Client));
    forall a: Action | Own(s, a) ensures !Enabled(s, a) {
      assert Alone(s, a);
    }
  }

  lemma DeadReadersStop(s: State, who: Who)
    requires Reached(s) && AtRest(s) && Dead(s) && !Enabled(s, ReadError(who))
    ensures Mine(s, who).reader.Stopped?
  {
    hide AtRest, StreamInv;
    if s.sv.reader.Connecting? {
      ReachedView(s, s.sv.reader.id);
      NoDialAtServer(ViewOf(s, s.sv.reader.id));
    }
    RestingReader(s, who);
  }

  /** Where nothing more can happen on a dead connection, the session is closed and so is every browser socket. */
  lemma DeadConnectionCloses(s: State, id: Id)
    requires Reached(s) && AtRest(s) && Dead(s) && !Enabled(s, ReadError(Server))
    ensures s.closed && (s.sv.At(id).proc.Absent? || s.sv.At(id).sock.Shut?)
  {
    hide AtRest, Reached, Enabled;
    DeadReadersStop(s, Server);
    ReachedStopped(s);
    ClosedSessionSettles(s, id);
  }

  /**
   * However the connection dies - link failure, end of the worker, close of the session - the two sides take only
   * finitely many more steps by themselves, and where they can go no further the session is closed, no browser
   * socket is open and both reading loops have ended.
   */
  lemma DeadConnectionEnds(s: State, acts: seq<Action>)
    requires Reached(s) && Dead(s) && AloneRun(s, acts)
    ensures |acts| <= Work(s) && CanRun(s, acts)
    ensures var t := Run(s, acts);
            Finished(t) ==>
              && t.closed && t.sv.reader.Stopped? && t.cl.reader.Stopped?
              && forall id: Id :: t.sv.At(id).proc.Absent? || t.sv.At(id).sock.Shut?
  {
    hide Work, Apply, Enabled, Alone, Reached, AtRest, Dead, Finished;
    AloneRunIsRun(s, acts);
    var t := Run(s, acts);
    if Finished(t) {
      FinishedRests(t);
      DeadReadersStop(t, Server);
      DeadReadersStop(t, Client);
      DeadConnectionCloses(t, 0);
      forall id: Id ensures t.sv.At(id).proc.Absent? || t.sv.At(id).sock.Shut? {
        DeadConnectionCloses(t, id);
      }
    }
  }

  // ----- keepalive

  function Outgoing(s: State, who: Who): Link {
    if who.Server? then s.s2c else s.c2s
  }

  function Count(fs: seq<Frame>, f: Frame): nat {
    multiset(fs)[f]
  }

  /** A ping that the reader has taken off the channel and not answered yet. */
  function Pending(r: Reader): nat {
    if r == Handling(Ping) || r == Replying(Pong) then 1 else 0
  }

  predicate Answered(s: State, who: Who) {
    Mine(s, who).up ==>
      Count(Outgoing(s, who).All(), Pong) + Pending(Mine(s, who).reader) == Count(Incoming(s, who).past, Ping)
  }

  /** A step that writes no pong, takes no frame and leaves the reader as far with a ping as it was. */
  lemma NothingToAnswer(s: State, t: State, who: Who)
    requires Answered(s, who) && (Mine(t, who).up ==> Mine(s, who).up)
    requires Count(Outgoing(t, who).All(), Pong) == Count(Outgoing(s, who).All(), Pong)
    requires Incoming(t, who).past == Incoming(s, who).past
    requires Pending(Mine(t, who).reader) == Pending(Mine(s, who).reader)
    ensures Answered(t, who)
  {
    hide Count;
  }

  lemma EmitCounts(s: State, w: Who, f: Frame, who: Who)
    ensures var t := Emit(s, w, f);
            && Count(Outgoing(t, who).All(), Pong) ==
               Count(Outgoing(s, who).All(), Pong) + (if w == who && Mine(s, w).up && f == Pong then 1 else 0)
            && Incoming(t, who).past == Incoming(s, who).past && Mine(t, who) == Mine(s, who)
  {
    assert Outgoing(Emit(s, w, f), w).All() ==
           if Mine(s, w).up then Outgoing(s, w).All() + [f] else Outgoing(s, w).All();
  }

  lemma AnsweredStep(s: State, a: Action, who: Who)
    requires Answered(s, who) && Enabled(s, a)
    ensures Answered(Apply(s, a), who)
  {
    hide Count, Answered;
    match a
    case Take(w) => TakeAnswered(s, w, who);
    case Reply(w) => ReplyAnswered(s, w, who);
    case Announce(_) => WriterAnswered(s, a, who);
    case PipeSend(_, _) => WriterAnswered(s, a, who);
    case PipeEnd(_, _) => WriterAnswered(s, a, who);
    case Tick => WriterAnswered(s, a, who);
    case _ =>
      LocalStep(s, a);
      NothingToAnswer(s, Apply(s, a), who);
  }

  /** The other steps touch no channel, and no reader that has a ping in its hand loses it unanswered. */
  lemma LocalStep(s: State, a: Action)
    requires Enabled(s, a)
    requires !a.Take? && !a.Reply? && !a.Announce? && !a.PipeSend? && !a.PipeEnd? && !a.Tick?
    ensures var t := Apply(s, a);
            t.s2c == s.s2c && t.c2s == s.c2s && (t.sv.up ==> s.sv.up) && (t.cl.up ==> s.cl.up)
    ensures var t := Apply(s, a);
            Pending(t.sv.reader) == Pending(s.sv.reader) && Pending(t.cl.reader) == Pending(s.cl.reader)
  {
    hide Apply, Enabled;
    NeverUpAgain(s, a);
    LocalChannels(s, a);
    LocalReaders(s, a);
  }

  lemma LocalChannels(s: State, a: Action)
    requires Enabled(s, a)
    requires !a.Take? && !a.Reply? && !a.Announce? && !a.PipeSend? && !a.PipeEnd? && !a.Tick?
    ensures Apply(s, a).s2c == s.s2c && Apply(s, a).c2s == s.c2s
  {
    hide Wrote, LooksLikeCallback, Drop, Dispatch, AfterBytes, CutAll;
  }

  lemma LocalReaders(s: State, a: Action)
    requires Enabled(s, a) && !a.Take? && !a.Reply?
    ensures Pending(Apply(s, a).sv.reader) == Pending(s.sv.reader)
    ensures Pending(Apply(s, a).cl.reader) == Pending(s.cl.reader)
  {
    hide Apply, Enabled, Pending;
    if a.Handle? || a.ReadError? {
      PingInHand(s, a);
    } else if ReaderStep(a) {
      NoPingInHand(s, a);
    } else {
      ReadersRest(s, a);
    }
  }

  predicate ReaderStep(a: Action) {
    a.Connect? || a.WriteSock? || a.ShutSock? || a.CloseSock? || a.Remove?
  }

  lemma PingInHand(s: State, a: Action)
    requires Enabled(s, a) && (a.Handle? || a.ReadError?)
    ensures Pending(Apply(s, a).sv.reader) == Pending(s.sv.reader)
    ensures Pending(Apply(s, a).cl.reader) == Pending(s.cl.reader)
  {
    hide CutAll;
  }

  lemma NoPingInHand(s: State, a: Action)
    requires Enabled(s, a) && ReaderStep(a)
    ensures Pending(Apply(s, a).sv.reader) == Pending(s.sv.reader)
    ensures Pending(Apply(s, a).cl.reader) == Pending(s.cl.reader)
  {
    hide Wrote, Drop, LooksLikeCallback;
  }

  lemma ReadersRest(s: State, a: Action)
    requires Enabled(s, a) && !ReaderStep(a) && !a.Take? && !a.Reply? && !a.Handle? && !a.ReadError?
    ensures Apply(s, a).sv.reader == s.sv.reader && Apply(s, a).cl.reader == s.cl.reader
  {
    hide AfterBytes, CutAll;
  }

  lemma WriterAnswered(s: State, a: Action, who: Who)
    requires Answered(s, who) && Enabled(s, a) && (a.Announce? || a.PipeSend? || a.PipeEnd? || a.Tick?)
    ensures Answered(Apply(s, a), who)
  {
    hide AfterBytes, Count, Answered, Emit, CutAll;
    match a {
      case Announce(id) => EmitCounts(s, Server, Open(id, s.sv.At(id).addr), who);
      case PipeSend(w, id) => EmitCounts(s, w, Data(id, Mine(s, w).At(id).proc.chunk), who);
      case PipeEnd(w, id) => EmitCounts(s, w, if Mine(s, w).At(id).proc.clean then Eof(id) else Close(id), who);
      case Tick => EmitCounts(s, Client, Ping, who);
    }
    NothingToAnswer(s, Apply(s, a), who);
  }

  lemma ReplyAnswered(s: State, w: Who, who: Who)
    requires Answered(s, who) && Enabled(s, Reply(w))
    ensures Answered(DoReply(s, w), who)
  {
    hide Count, Emit;
    EmitCounts(s, w, Mine(s, w).reader.frame, who);
  }

  lemma TakeAnswered(s: State, w: Who, who: Who)
    requires Answered(s, who) && Enabled(s, Take(w))
    ensures Answered(DoTake(s, w), who)
  {
    hide Count;
    TakeCounts(s, w);
  }

  lemma TakeCounts(s: State, w: Who)
    requires Enabled(s, Take(w))
    ensures var t := DoTake(s, w);
            && Incoming(t, w).All() == Incoming(s, w).All()
            && Count(Incoming(t, w).past, Ping) ==
               Count(Incoming(s, w).past, Ping) + if Incoming(s, w).flight[0] == Ping then 1 else 0
  {
    var l := Incoming(s, w);
    assert l.flight == [l.flight[0]] + l.flight[1..];
  }

  lemma {:induction false} AnsweredRun(s: State, acts: seq<Action>, who: Who)
    requires Answered(s, who) && CanRun(s, acts)
    ensures Answered(Run(s, acts), who)
    decreases |acts|
  {
    hide Apply, Enabled, Answered;
    if acts != [] {
      AnsweredStep(s, acts[0], who);
      AnsweredRun(Apply(s, acts[0]), acts[1..], who);
    }
  }

  /** In every run, each ping that a side has read is answered by one pong, or is being answered. */
  lemma PingsAreAnswered(s: State, who: Who)
    requires Reached(s) && Mine(s, who).up
    ensures Count(Outgoing(s, who).All(), Pong) + Pending(Mine(s, who).reader) == Count(Incoming(s, who).past, Ping)
  {
    hide CanRun, Run;
    var acts :| CanRun(INIT, acts) && Run(INIT, acts) == s;
    AnsweredRun(INIT, acts, who);
  }

  /** A tick of the keepalive puts one ping on a working channel and changes nothing else. */
  lemma TickPings(s: State)
    ensures var t := Apply(s, Tick);
            && Count(t.c2s.All(), Ping) == Count(s.c2s.All(), Ping) + (if s.cl.up then 1 else 0)
            && t == s.(c2s := t.c2s) && t.c2s.past == s.c2s.past && s.c2s.flight <= t.c2s.flight
  {
  }
}
