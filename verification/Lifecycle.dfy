/**
 * Tunnel sessions on the server: reservation, attach, timers, browser launch and close
 * (server/tunnel.go, `Tunnel.attach` in server/server.go), with an integer clock.
 */
module Lifecycle {
  import opened Options

  type SessionId = string

  /** A bound TCP listener; two sockets are never the same one. */
  type Listener = nat

  /** An accepted browser connection. */
  type ConnId = nat

  const KEY_SIZE := 32

  /** Durations in seconds: `DefaultTunnelAttachTimeout`, `DefaultTunnelIdleTimeout`. */
  const DEFAULT_ATTACH := 10
  const DEFAULT_IDLE := 30

  /**
   * `listed` is membership in the session map. Deadlines are `None` while a timer is stopped. `touched` is the
   * time of the last (re)start of the idle timer, `launches` and `closes` count effects, `written` counts frames
   * written to the peer.
   */
  datatype Session = Session(
    listed: bool, listeners: seq<Listener>, created: int, attachTO: int, idleTO: int,
    attachAt: Option<int>, idleAt: Option<int>, touched: int,
    peer: bool, ready: bool, launches: nat, closes: nat, written: nat)

  /** Where an accept loop is with one connection. */
  datatype Stage = Waiting | Registered | Announced | Gone

  datatype Conn = Conn(session: SessionId, stage: Stage)

  datatype State = State(
    now: int, sessions: map<SessionId, Session>, bound: set<Listener>, conns: map<ConnId, Conn>)

  const INIT := State(0, map[], {}, map[])

  /** What `Open` was asked, and what `bindListeners` managed to bind. */
  datatype Request = Request(targets: nat, bound: seq<Listener>, keySize: nat, attachTO: int, idleTO: int)

  datatype PeerFrame = Traffic | PingFrame | Harmless | Unknown | ReadFailure

  datatype Action =
    | Open(sid: SessionId, req: Request)
    | Attach(sid: SessionId, valid: bool, opens: bool)
    | Close(sid: SessionId)
    | FireAttach(sid: SessionId)
    | FireIdle(sid: SessionId)
    | Accept(cid: ConnId, sid: SessionId)
    | Proceed(cid: ConnId)
    | GiveUp(cid: ConnId)
    | Announce(cid: ConnId)
    | Peer(sid: SessionId, frame: PeerFrame)
    | Tick

  predicate Distinct(ls: seq<Listener>) {
    forall i, j | 0 <= i < j < |ls| :: ls[i] != ls[j]
  }

  function Elements(ls: seq<Listener>): set<Listener> {
    set l | l in ls
  }

  predicate Due(t: Option<int>, now: int) {
    t.Some? && t.value <= now
  }

  function Set(s: State, sid: SessionId, x: Session): State {
    s.(sessions := s.sessions[sid := x])
  }

  // ----- effects

  /** `touch`: restarts the idle timer, even one that was stopped. */
  function Touched(x: Session, now: int): Session {
    x.(idleAt := Some(now + x.idleTO), touched := now)
  }

  /** `closeSession`: removes the session and runs its close once; a second call finds nothing. */
  function Closed(s: State, sid: SessionId): State {
    if sid !in s.sessions || !s.sessions[sid].listed then s
    else
      var x := s.sessions[sid];
      Set(s, sid, x.(listed := false, attachAt := None, idleAt := None, closes := x.closes + 1))
      .(bound := s.bound - Elements(x.listeners))
  }

  function Fresh(s: State, req: Request): Session {
    var attachTO := if req.attachTO <= 0 then DEFAULT_ATTACH else req.attachTO;
    var idleTO := if req.idleTO <= 0 then DEFAULT_IDLE else req.idleTO;
    Session(true, req.bound, s.now, attachTO, idleTO,
            Some(s.now + attachTO), Some(s.now + idleTO), s.now, false, false, 0, 0, 0)
  }

  /** `Open` succeeds only with a target, a bound listener and a key of the right size. */
  predicate Reserves(req: Request) {
    req.targets > 0 && req.bound != [] && req.keySize == KEY_SIZE
  }

  function Opened(s: State, sid: SessionId, req: Request): State {
    if Reserves(req) then Set(s, sid, Fresh(s, req)).(bound := s.bound + Elements(req.bound)) else s
  }

  /** `attach` from the session lookup on; `valid` is the outcome of the MAC check, `opens` that of the launch. */
  function Attached(s: State, sid: SessionId, valid: bool, opens: bool): State {
    if sid !in s.sessions || !s.sessions[sid].listed then s
    else if !valid then Closed(s, sid)
    else if s.sessions[sid].peer then Set(s, sid, s.sessions[sid].(attachAt := None))
    else
      var t := Set(s, sid, WithPeer(s.sessions[sid], s.now));
      if s.sessions[sid].launches == 0 && !opens then Closed(t, sid) else t
  }

  /** The session takes its peer, and `launchOnce` runs if it has not run before. */
  function WithPeer(x: Session, now: int): Session {
    var launches := if x.launches == 0 then 1 else x.launches;
    Touched(x.(attachAt := None, peer := true, ready := true, launches := launches), now)
  }

  /** One frame in `readPeerFrames`; a ping is answered but does not touch the session. */
  function Received(s: State, sid: SessionId, frame: PeerFrame): State
    requires sid in s.sessions
  {
    var x := s.sessions[sid];
    match frame
    case Traffic => Set(s, sid, Touched(x, s.now))
    case PingFrame => Set(s, sid, x.(written := x.written + if x.listed then 1 else 0))
    case Harmless => s
    case Unknown => Closed(s, sid)
    case ReadFailure => Closed(s, sid)
  }

  // ----- steps

  predicate Enabled(s: State, a: Action) {
    match a
    case Open(sid, req) =>
      && sid !in s.sessions
      && Distinct(req.bound)
      && (forall l | l in req.bound :: l !in s.bound)
      && (forall x, l | x in s.sessions && l in req.bound :: l !in s.sessions[x].listeners)
    case Attach(_, _, _) => true
    case Close(_) => true
    case FireAttach(sid) => sid in s.sessions && Due(s.sessions[sid].attachAt, s.now)
    case FireIdle(sid) => sid in s.sessions && Due(s.sessions[sid].idleAt, s.now)
    case Accept(cid, sid) => cid !in s.conns && sid in s.sessions
    case Proceed(cid) =>
      && cid in s.conns && s.conns[cid].stage.Waiting?
      && s.conns[cid].session in s.sessions && s.sessions[s.conns[cid].session].ready
    case GiveUp(cid) =>
      && cid in s.conns && s.conns[cid].stage.Waiting?
      && s.conns[cid].session in s.sessions && !s.sessions[s.conns[cid].session].listed
    case Announce(cid) => cid in s.conns && s.conns[cid].stage.Registered? && s.conns[cid].session in s.sessions
    case Peer(sid, _) => sid in s.sessions && s.sessions[sid].peer
    case Tick => forall sid | sid in s.sessions ::
                   !Due(s.sessions[sid].attachAt, s.now) && !Due(s.sessions[sid].idleAt, s.now)
  }

  function Apply(s: State, a: Action): State
    requires Enabled(s, a)
  {
    match a
    case Open(sid, req) => Opened(s, sid, req)
    case Attach(sid, valid, opens) => Attached(s, sid, valid, opens)
    case Close(sid) => Closed(s, sid)
    case FireAttach(sid) => Closed(Set(s, sid, s.sessions[sid].(attachAt := None)), sid)
    case FireIdle(sid) => Closed(Set(s, sid, s.sessions[sid].(idleAt := None)), sid)
    case Accept(cid, sid) => s.(conns := s.conns[cid := Conn(sid, Waiting)])
    case Proceed(cid) =>
      var sid := s.conns[cid].session;
      Set(s, sid, Touched(s.sessions[sid], s.now)).(conns := s.conns[cid := Conn(sid, Registered)])
    case GiveUp(cid) => s.(conns := s.conns[cid := s.conns[cid].(stage := Gone)])
    case Announce(cid) =>
      var sid := s.conns[cid].session;
      var x := s.sessions[sid];
      if x.listed then
        Set(s, sid, x.(written := x.written + 1)).(conns := s.conns[cid := Conn(sid, Announced)])
      else
        s.(conns := s.conns[cid := Conn(sid, Gone)])
    case Peer(sid, frame) => Received(s, sid, frame)
    case Tick => s.(now := s.now + 1)
  }

  predicate CanRun(s: State, acts: seq<Action>)
    decreases |acts|
  {
    acts == [] || (Enabled(s, acts[0]) && CanRun(Apply(s, acts[0]), acts[1..]))
  }

  function Run(s: State, acts: seq<Action>): State
    requires CanRun(s, acts)
    decreases |acts|
  {
    if acts == [] then s else Run(Apply(s, acts[0]), acts[1..])
  }

  // ----- the invariant

  /** Attachment, launch and close of one session, and its timers. */
  predicate Sound(x: Session, now: int) {
    && (x.ready <==> x.peer)
    && (x.launches == if x.peer then 1 else 0)
    && (x.written > 0 ==> x.peer)
    && (x.closes == if x.listed then 0 else 1)
    && x.attachTO > 0 && x.idleTO > 0 && x.created <= x.touched <= now
    && (x.listed ==> x.idleAt == Some(x.touched + x.idleTO) && now <= x.touched + x.idleTO)
    && (x.listed && !x.peer ==> x.attachAt == Some(x.created + x.attachTO) && now <= x.created + x.attachTO)
    && (x.listed && x.peer ==> x.attachAt == None)
    && x.listeners != [] && Distinct(x.listeners)
  }

  predicate AllSound(s: State) {
    forall sid | sid in s.sessions :: Sound(s.sessions[sid], s.now)
  }

  /** The listeners of different sessions are different, listed or not. */
  predicate Apart(s: State) {
    forall a, b | a in s.sessions && b in s.sessions && a != b ::
      Elements(s.sessions[a].listeners) !! Elements(s.sessions[b].listeners)
  }

  /** The open browser listeners are exactly those of the listed sessions. */
  ghost predicate Conserved(s: State) {
    && (forall sid | sid in s.sessions && s.sessions[sid].listed :: Elements(s.sessions[sid].listeners) <= s.bound)
    && (forall l | l in s.bound :: exists sid :: Owns(s, sid, l))
  }

  predicate Owns(s: State, sid: SessionId, l: Listener) {
    sid in s.sessions && s.sessions[sid].listed && l in s.sessions[sid].listeners
  }

  /** A connection gets past the wait only for a session with a peer. */
  predicate Served(s: State) {
    forall cid | cid in s.conns ::
      && s.conns[cid].session in s.sessions
      && (s.conns[cid].stage.Registered? || s.conns[cid].stage.Announced? ==> s.sessions[s.conns[cid].session].peer)
  }

  ghost predicate Inv(s: State) {
    AllSound(s) && Apart(s) && Conserved(s) && Served(s)
  }

  // ----- the invariant is kept

  /** One session changes, without changing what it owns. */
  lemma UpdateKeeps(s: State, sid: SessionId, y: Session)
    requires Inv(s) && sid in s.sessions && Sound(y, s.now)
    requires y.listeners == s.sessions[sid].listeners && y.listed == s.sessions[sid].listed
    requires s.sessions[sid].peer ==> y.peer
    ensures Inv(Set(s, sid, y))
  {
    hide Sound, Distinct;
    var t := Set(s, sid, y);
    forall l | l in t.bound ensures exists x :: Owns(t, x, l) {
      var x :| Owns(s, x, l);
      assert Owns(t, x, l);
    }
  }

  lemma CloseKeeps(s: State, sid: SessionId)
    requires Inv(s)
    ensures Inv(Closed(s, sid))
  {
    var t := Closed(s, sid);
    if sid in s.sessions && s.sessions[sid].listed {
      var x := s.sessions[sid];
      assert Sound(x, s.now);
      forall other | other in t.sessions && t.sessions[other].listed
        ensures Elements(t.sessions[other].listeners) <= t.bound
      {
        assert Elements(s.sessions[other].listeners) !! Elements(x.listeners);
      }
      forall l | l in t.bound ensures exists other :: Owns(t, other, l) {
        var other :| Owns(s, other, l);
        assert other != sid;
        assert Owns(t, other, l);
      }
    }
  }

  lemma OpenKeeps(s: State, sid: SessionId, req: Request)
    requires Inv(s) && Enabled(s, Open(sid, req))
    ensures Inv(Opened(s, sid, req))
  {
    if Reserves(req) {
      var t := Opened(s, sid, req);
      assert Sound(t.sessions[sid], t.now);
      forall l | l in t.bound ensures exists x :: Owns(t, x, l) {
        if l in s.bound {
          var x :| Owns(s, x, l);
          assert Owns(t, x, l);
        } else {
          assert Owns(t, sid, l);
        }
      }
    }
  }

  lemma AttachKeeps(s: State, sid: SessionId, valid: bool, opens: bool)
    requires Inv(s)
    ensures Inv(Attached(s, sid, valid, opens))
  {
    if sid in s.sessions && s.sessions[sid].listed {
      if !valid {
        CloseKeeps(s, sid);
      } else {
        hide Apart, Conserved, Served;
        var x := s.sessions[sid];
        assert Sound(x, s.now);
        if x.peer {
          UpdateKeeps(s, sid, x.(attachAt := None));
        } else {
          UpdateKeeps(s, sid, WithPeer(x, s.now));
          CloseKeeps(Set(s, sid, WithPeer(x, s.now)), sid);
        }
      }
    }
  }

  lemma FireKeeps(s: State, sid: SessionId, y: Session)
    requires Inv(s) && sid in s.sessions
    requires y == s.sessions[sid].(attachAt := None) || y == s.sessions[sid].(idleAt := None)
    ensures Inv(Closed(Set(s, sid, y), sid))
  {
    hide Apart, Conserved, Served;
    var x := s.sessions[sid];
    assert Sound(x, s.now);
    if x.listed {
      CloseKeeps(s, sid);
      TimerForgotten(s, sid, y);
    } else {
      UpdateKeeps(s, sid, y);
    }
  }

  /** Closing a listed session stops both timers, so it does not matter that one of them has just fired. */
  lemma TimerForgotten(s: State, sid: SessionId, y: Session)
    requires sid in s.sessions && s.sessions[sid].listed
    requires y == s.sessions[sid].(attachAt := None) || y == s.sessions[sid].(idleAt := None)
    ensures Closed(Set(s, sid, y), sid) == Closed(s, sid)
  {
  }

  lemma ConnKeeps(s: State, cid: ConnId, c: Conn)
    requires Inv(s) && c.session in s.sessions
    requires c.stage.Registered? || c.stage.Announced? ==> s.sessions[c.session].peer
    ensures Inv(s.(conns := s.conns[cid := c]))
  {
    hide Sound, Distinct;
    var t := s.(conns := s.conns[cid := c]);
    forall l | l in t.bound ensures exists x :: Owns(t, x, l) {
      var x :| Owns(s, x, l);
      assert Owns(t, x, l);
    }
  }

  lemma PeerKeeps(s: State, sid: SessionId, frame: PeerFrame)
    requires Inv(s) && Enabled(s, Peer(sid, frame))
    ensures Inv(Received(s, sid, frame))
  {
    hide Apart, Conserved, Served;
    var x := s.sessions[sid];
    assert Sound(x, s.now);
    match frame
    case Traffic => UpdateKeeps(s, sid, Touched(x, s.now));
    case PingFrame => UpdateKeeps(s, sid, x.(written := x.written + if x.listed then 1 else 0));
    case Harmless =>
    case Unknown => CloseKeeps(s, sid);
    case ReadFailure => CloseKeeps(s, sid);
  }

  lemma ProceedKeeps(s: State, cid: ConnId)
    requires Inv(s) && (Enabled(s, Proceed(cid)) || Enabled(s, Announce(cid)))
    ensures Enabled(s, Proceed(cid)) ==> Inv(Apply(s, Proceed(cid)))
    ensures Enabled(s, Announce(cid)) ==> Inv(Apply(s, Announce(cid)))
  {
    hide Apart, Conserved;
    var sid := s.conns[cid].session;
    var x := s.sessions[sid];
    assert Sound(x, s.now);
    if Enabled(s, Proceed(cid)) {
      UpdateKeeps(s, sid, Touched(x, s.now));
      ConnKeeps(Set(s, sid, Touched(x, s.now)), cid, Conn(sid, Registered));
    } else {
      ConnKeeps(s, cid, Conn(sid, Gone));
      UpdateKeeps(s, sid, x.(written := x.written + 1));
      ConnKeeps(Set(s, sid, x.(written := x.written + 1)), cid, Conn(sid, Announced));
    }
  }

  lemma TickKeeps(s: State)
    requires Inv(s) && Enabled(s, Tick)
    ensures Inv(s.(now := s.now + 1))
  {
    var t := s.(now := s.now + 1);
    forall l | l in t.bound ensures exists x :: Owns(t, x, l) {
      var x :| Owns(s, x, l);
      assert Owns(t, x, l);
    }
  }

  lemma StepKeeps(s: State, a: Action)
    requires Inv(s) && Enabled(s, a)
    ensures Inv(Apply(s, a))
  {
    match a
    case Open(sid, req) => OpenKeeps(s, sid, req);
    case Attach(sid, valid, opens) => AttachKeeps(s, sid, valid, opens);
    case Close(sid) => CloseKeeps(s, sid);
    case FireAttach(sid) => FireKeeps(s, sid, s.sessions[sid].(attachAt := None));
    case FireIdle(sid) => FireKeeps(s, sid, s.sessions[sid].(idleAt := None));
    case Accept(cid, sid) => ConnKeeps(s, cid, Conn(sid, Waiting));
    case Proceed(cid) => ProceedKeeps(s, cid);
    case GiveUp(cid) => ConnKeeps(s, cid, s.conns[cid].(stage := Gone));
    case Announce(cid) => ProceedKeeps(s, cid);
    case Peer(sid, frame) => PeerKeeps(s, sid, frame);
    case Tick => TickKeeps(s);
  }

  lemma {:induction false} RunKeeps(s: State, acts: seq<Action>)
    requires Inv(s) && CanRun(s, acts)
    ensures Inv(Run(s, acts))
    decreases |acts|
  {
    hide Inv, Apply;
    if acts != [] {
      StepKeeps(s, acts[0]);
      RunKeeps(Apply(s, acts[0]), acts[1..]);
    }
  }

  ghost predicate Reached(s: State) {
    exists acts :: CanRun(INIT, acts) && Run(INIT, acts) == s
  }

  lemma ReachedInv(s: State)
    requires Reached(s)
    ensures Inv(s)
  {
    hide CanRun, Run;
    var acts :| CanRun(INIT, acts) && Run(INIT, acts) == s;
    RunKeeps(INIT, acts);
  }

  // ----- what it means

  lemma OneOwner(s: State, l: Listener, a: SessionId, b: SessionId)
    requires Apart(s) && Owns(s, a, l) && Owns(s, b, l)
    ensures a == b
  {
    assert l in Elements(s.sessions[a].listeners);
    assert l in Elements(s.sessions[b].listeners);
  }

  /** The open listeners are the disjoint union of those of the sessions in the map. */
  lemma ListenersConserved(s: State, l: Listener)
    requires Reached(s)
    ensures l in s.bound <==> exists sid :: Owns(s, sid, l)
    ensures forall a, b | Owns(s, a, l) && Owns(s, b, l) :: a == b
  {
    ReachedInv(s);
    hide Sound;
    if sid :| Owns(s, sid, l) {
      assert l in Elements(s.sessions[sid].listeners);
    }
    forall a, b | Owns(s, a, l) && Owns(s, b, l) ensures a == b {
      OneOwner(s, l, a, b);
    }
  }

  /** Launch, attach and close, whatever the order of events. */
  lemma SessionSafety(s: State, sid: SessionId)
    requires Reached(s) && sid in s.sessions
    ensures var x := s.sessions[sid];
            && x.launches <= 1 && (x.launches == 1 <==> x.peer)
            && (x.ready ==> x.peer)
            && (x.written > 0 ==> x.peer)
            && x.closes <= 1 && (x.closes == 1 <==> !x.listed)
  {
    ReachedInv(s);
    assert Sound(s.sessions[sid], s.now);
  }

  /** Only a valid attach naming the session gives it a peer and launches the browser. */
  lemma LaunchStep(s: State, a: Action, sid: SessionId)
    requires Enabled(s, a) && sid in Apply(s, a).sessions
    requires Apply(s, a).sessions[sid].launches > if sid in s.sessions then s.sessions[sid].launches else 0
    ensures a.Attach? && a.sid == sid && a.valid && sid in s.sessions && s.sessions[sid].listed
  {
  }

  /** The last step of a run, and the run before it. */
  lemma {:induction false} LastStep(s: State, acts: seq<Action>)
    requires acts != [] && CanRun(s, acts)
    ensures var init, last := acts[..|acts| - 1], acts[|acts| - 1];
            CanRun(s, init) && Enabled(Run(s, init), last) && Run(s, acts) == Apply(Run(s, init), last)
    decreases |acts|
  {
    hide Enabled, Apply;
    var init := acts[..|acts| - 1];
    if |acts| == 1 {
      assert init == [] && acts[1..] == [];
    } else {
      LastStep(Apply(s, acts[0]), acts[1..]);
      assert init[1..] == acts[1..][..|acts| - 2];
    }
  }

  /** Nothing has happened yet on a session without a peer: no launch, no frame written, no connection past the wait. */
  predicate Untried(s: State, sid: SessionId) {
    && sid in s.sessions
    && !s.sessions[sid].peer && s.sessions[sid].launches == 0 && s.sessions[sid].written == 0
    && forall cid | cid in s.conns && s.conns[cid].session == sid ::
         !s.conns[cid].stage.Registered? && !s.conns[cid].stage.Announced?
  }

  lemma UntriedWithoutPeer(s: State, sid: SessionId)
    requires Inv(s) && sid in s.sessions && !s.sessions[sid].peer
    ensures Untried(s, sid)
  {
    hide Apart, Conserved;
    assert Sound(s.sessions[sid], s.now);
  }

  /**
   * In every run a launched browser goes back to a valid attach that named the session while it was listed, and
   * before which nothing had happened on it.
   */
  lemma {:induction false} OnlyAttachLaunches(acts: seq<Action>, sid: SessionId) returns (i: nat)
    requires CanRun(INIT, acts) && sid in Run(INIT, acts).sessions && Run(INIT, acts).sessions[sid].launches > 0
    ensures i < |acts| && acts[i].Attach? && acts[i].sid == sid && acts[i].valid
    ensures CanRun(INIT, acts[..i])
    ensures Untried(Run(INIT, acts[..i]), sid) && Run(INIT, acts[..i]).sessions[sid].listed
    decreases |acts|
  {
    hide Enabled, Apply, CanRun, Run, Untried, Inv;
    assert acts != [] by { Start(acts); }
    LastStep(INIT, acts);
    var n := |acts| - 1;
    var s := Run(INIT, acts[..n]);
    if sid in s.sessions && s.sessions[sid].launches > 0 {
      i := OnlyAttachLaunches(acts[..n], sid);
      assert acts[..n][..i] == acts[..i];
    } else {
      i := n;
      LaunchStep(s, acts[n], sid);
      InitHolds();
      RunKeeps(INIT, acts[..n]);
      LaunchesArePeers(s, sid);
      UntriedWithoutPeer(s, sid);
    }
  }

  lemma Start(acts: seq<Action>)
    requires CanRun(INIT, acts)
    ensures acts == [] ==> Run(INIT, acts).sessions == map[]
  {
  }

  lemma InitHolds()
    ensures Inv(INIT)
  {
  }

  lemma LaunchesArePeers(s: State, sid: SessionId)
    requires Inv(s) && sid in s.sessions
    ensures s.sessions[sid].launches == if s.sessions[sid].peer then 1 else 0
  {
    assert Sound(s.sessions[sid], s.now);
  }

  /** A connection is registered or announced only for a session that has its peer. */
  lemma NoStreamBeforeAttach(s: State, cid: ConnId)
    requires Reached(s) && cid in s.conns && (s.conns[cid].stage.Registered? || s.conns[cid].stage.Announced?)
    ensures s.conns[cid].session in s.sessions && s.sessions[s.conns[cid].session].peer
  {
    ReachedInv(s);
  }

  /** A live session is never older than its attach timeout without a peer, and never idle beyond its idle timeout. */
  lemma TimersBite(s: State, sid: SessionId)
    requires Reached(s) && sid in s.sessions && s.sessions[sid].listed
    ensures var x := s.sessions[sid];
            && (!x.peer ==> s.now - x.created <= x.attachTO)
            && s.now - x.touched <= x.idleTO
  {
    ReachedInv(s);
    assert Sound(s.sessions[sid], s.now);
  }

  /** The timers are not early: each closes a session only on its own deadline. */
  lemma TimersAreExact(s: State, sid: SessionId)
    requires Reached(s) && sid in s.sessions && s.sessions[sid].listed
    ensures var x := s.sessions[sid];
            && (Enabled(s, FireIdle(sid)) <==> s.now == x.touched + x.idleTO)
            && (Enabled(s, FireAttach(sid)) <==> !x.peer && s.now == x.created + x.attachTO)
  {
    ReachedInv(s);
    assert Sound(s.sessions[sid], s.now);
  }

  /** The steps that restart the idle timer of a session: its attach, its traffic, its connections. */
  predicate Touches(s: State, a: Action, sid: SessionId) {
    match a
    case Attach(x, valid, _) =>
      x == sid && valid && sid in s.sessions && s.sessions[sid].listed && !s.sessions[sid].peer
    case Peer(x, frame) => x == sid && frame.Traffic?
    case Proceed(cid) => cid in s.conns && s.conns[cid].session == sid
    case _ => false
  }

  /** A run in which nothing touches the session; pings, and everything on other sessions, may happen. */
  predicate Untouched(s: State, acts: seq<Action>, sid: SessionId)
    requires CanRun(s, acts)
    decreases |acts|
  {
    acts == [] || (!Touches(s, acts[0], sid) && Untouched(Apply(s, acts[0]), acts[1..], sid))
  }

  lemma UntouchedStep(s: State, a: Action, sid: SessionId)
    requires sid in s.sessions && Enabled(s, a) && !Touches(s, a, sid)
    ensures var t := Apply(s, a);
            && sid in t.sessions && t.sessions[sid].touched == s.sessions[sid].touched
            && t.sessions[sid].idleTO == s.sessions[sid].idleTO
  {
  }

  lemma {:induction false} UntouchedRun(s: State, acts: seq<Action>, sid: SessionId)
    requires sid in s.sessions && CanRun(s, acts) && Untouched(s, acts, sid)
    ensures sid in Run(s, acts).sessions && Run(s, acts).sessions[sid].touched == s.sessions[sid].touched
    ensures Run(s, acts).sessions[sid].idleTO == s.sessions[sid].idleTO
    decreases |acts|
  {
    hide Enabled, Apply, Touches;
    if acts != [] {
      UntouchedStep(s, acts[0], sid);
      UntouchedRun(Apply(s, acts[0]), acts[1..], sid);
    }
  }

  /**
   * Keepalive pings do not keep a session alive: in every run without a step that touches it, whatever else happens
   * on the server, the session is closed once its idle deadline has passed.
   */
  lemma PingsDoNotKeepAlive(s: State, acts: seq<Action>, sid: SessionId)
    requires Reached(s) && sid in s.sessions && CanRun(s, acts) && Untouched(s, acts, sid)
    ensures sid in Run(s, acts).sessions
    ensures Run(s, acts).now > s.sessions[sid].touched + s.sessions[sid].idleTO ==> !Run(s, acts).sessions[sid].listed
  {
    hide CanRun, Run, Inv, Untouched;
    ReachedInv(s);
    RunKeeps(s, acts);
    UntouchedRun(s, acts, sid);
    if Run(s, acts).sessions[sid].listed {
      LiveNow(Run(s, acts), sid);
    }
  }

  // ----- what keeps a session alive

  function Ticks(acts: seq<Action>): nat {
    if acts == [] then 0 else (if acts[0].Tick? then 1 else 0) + Ticks(acts[1..])
  }

  /** The idle timer of the session, if it runs, does not fire before `t`. */
  predicate SafeUntil(s: State, sid: SessionId, t: int, idleTO: int) {
    && sid in s.sessions && s.sessions[sid].idleTO == idleTO
    && (s.sessions[sid].idleAt.Some? ==> t <= s.sessions[sid].idleAt.value)
  }

  lemma TouchMakesSafe(s: State, a: Action, sid: SessionId)
    requires sid in s.sessions && Enabled(s, a) && Touches(s, a, sid)
    ensures SafeUntil(Apply(s, a), sid, s.now + s.sessions[sid].idleTO, s.sessions[sid].idleTO)
    ensures Apply(s, a).now == s.now
  {
  }

  lemma SafeStep(s: State, a: Action, sid: SessionId, t: int, idleTO: int)
    requires SafeUntil(s, sid, t, idleTO) && t <= s.now + idleTO && Enabled(s, a)
    ensures SafeUntil(Apply(s, a), sid, t, idleTO)
    ensures Apply(s, a).now == s.now + if a.Tick? then 1 else 0
  {
  }

  lemma {:induction false} SafeRun(s: State, acts: seq<Action>, sid: SessionId, t: int, idleTO: int)
    requires SafeUntil(s, sid, t, idleTO) && t <= s.now + idleTO && CanRun(s, acts)
    ensures SafeUntil(Run(s, acts), sid, t, idleTO) && Run(s, acts).now == s.now + Ticks(acts)
    decreases |acts|
  {
    hide Apply, Enabled, SafeUntil;
    if acts != [] {
      SafeStep(s, acts[0], sid, t, idleTO);
      SafeRun(Apply(s, acts[0]), acts[1..], sid, t, idleTO);
    }
  }

  /**
   * Data, EOF and Close frames of the peer, an accepted browser connection and the attach itself keep a session
   * alive: in every run from there, the idle timer cannot fire before the idle timeout has passed.
   */
  lemma TouchKeepsAlive(s: State, a: Action, acts: seq<Action>, sid: SessionId)
    requires sid in s.sessions && Enabled(s, a) && CanRun(Apply(s, a), acts)
    requires || a == Peer(sid, Traffic)
             || (a.Proceed? && s.conns[a.cid].session == sid)
             || (a.Attach? && a.sid == sid && a.valid && s.sessions[sid].listed && !s.sessions[sid].peer)
    requires Ticks(acts) < s.sessions[sid].idleTO
    ensures !Enabled(Run(Apply(s, a), acts), FireIdle(sid))
  {
    var n := s.sessions[sid].idleTO;
    TouchMakesSafe(s, a, sid);
    SafeRun(Apply(s, a), acts, sid, s.now + n, n);
  }

  // ----- reservation

  /**
   * After `Open`, until something else closes it, a session without a peer meets its attach timer exactly at the
   * timeout asked for, or at 10 seconds if none was; untouched it meets its idle timer at its timeout, or at 30.
   */
  lemma ReservationTimers(s: State, sid: SessionId, req: Request, acts: seq<Action>)
    requires Reached(s) && Enabled(s, Open(sid, req)) && CanRun(Apply(s, Open(sid, req)), acts)
    requires req.targets > 0 && req.bound != [] && req.keySize == 32
    ensures var t := Run(Apply(s, Open(sid, req)), acts);
            && sid in t.sessions
            && (t.sessions[sid].listed ==>
                  (Enabled(t, FireAttach(sid)) <==>
                     !t.sessions[sid].peer && Ticks(acts) == if req.attachTO > 0 then req.attachTO else 10))
            && (t.sessions[sid].listed && Untouched(Apply(s, Open(sid, req)), acts, sid) ==>
                  (Enabled(t, FireIdle(sid)) <==> Ticks(acts) == if req.idleTO > 0 then req.idleTO else 30))
  {
    hide CanRun, Run, Untouched, Enabled, Apply, Inv;
    var u := Apply(s, Open(sid, req));
    assert u == Opened(s, sid, req) by { OpenStep(s, sid, req); }
    Then(s, Open(sid, req));
    ThenRun(u, acts);
    var t := Run(u, acts);
    BirthKept(u, acts, sid);
    Clock(u, acts);
    if t.sessions[sid].listed {
      TimersAreExact(t, sid);
    }
    if Untouched(u, acts, sid) {
      UntouchedRun(u, acts, sid);
    }
  }

  lemma OpenStep(s: State, sid: SessionId, req: Request)
    requires Enabled(s, Open(sid, req))
    ensures Apply(s, Open(sid, req)) == Opened(s, sid, req)
  {
  }

  lemma {:induction false} ThenRun(s: State, acts: seq<Action>)
    requires Reached(s) && CanRun(s, acts)
    ensures Reached(Run(s, acts))
    decreases |acts|
  {
    hide Reached, Enabled, Apply;
    if acts != [] {
      Then(s, acts[0]);
      ThenRun(Apply(s, acts[0]), acts[1..]);
    }
  }

  lemma {:induction false} Clock(s: State, acts: seq<Action>)
    requires CanRun(s, acts)
    ensures Run(s, acts).now == s.now + Ticks(acts)
    decreases |acts|
  {
    hide Enabled;
    if acts != [] {
      Clock(Apply(s, acts[0]), acts[1..]);
    }
  }

  lemma BirthStep(s: State, a: Action, sid: SessionId)
    requires sid in s.sessions && Enabled(s, a)
    ensures sid in Apply(s, a).sessions
    ensures var x, y := s.sessions[sid], Apply(s, a).sessions[sid];
            y.created == x.created && y.attachTO == x.attachTO && y.idleTO == x.idleTO && y.listeners == x.listeners
  {
  }

  /** A session keeps its listeners, its timeouts and the time of its reservation. */
  lemma {:induction false} BirthKept(s: State, acts: seq<Action>, sid: SessionId)
    requires sid in s.sessions && CanRun(s, acts)
    ensures sid in Run(s, acts).sessions
    ensures var x, y := s.sessions[sid], Run(s, acts).sessions[sid];
            y.created == x.created && y.attachTO == x.attachTO && y.idleTO == x.idleTO && y.listeners == x.listeners
    decreases |acts|
  {
    hide Enabled, Apply;
    if acts != [] {
      BirthStep(s, acts[0], sid);
      BirthKept(Apply(s, acts[0]), acts[1..], sid);
    }
  }

  /** `Open` reserves exactly if it has a target, a bound listener and a key of 32 bytes; else nothing changes. */
  lemma OpenReserves(s: State, sid: SessionId, req: Request)
    requires Enabled(s, Open(sid, req))
    ensures var t := Apply(s, Open(sid, req));
            if req.targets > 0 && req.bound != [] && req.keySize == 32 then
              && sid in t.sessions && t.sessions[sid].listed && !t.sessions[sid].peer
              && t.sessions[sid].listeners == req.bound
              && (forall l :: l in t.bound <==> l in s.bound || l in req.bound)
            else t == s
  {
  }

  // ----- the end of a session

  /** The events that end a listed session. */
  predicate Ends(s: State, a: Action, sid: SessionId)
    requires sid in s.sessions
  {
    match a
    case Close(x) => x == sid
    case FireAttach(x) => x == sid
    case FireIdle(x) => x == sid
    case Peer(x, frame) => x == sid && (frame.Unknown? || frame.ReadFailure?)
    case Attach(x, valid, opens) => x == sid && (!valid || (!s.sessions[sid].peer && !opens))
    case _ => false
  }

  /**
   * A listed session is closed by an explicit close, by its timers, by an unknown frame or a read failure, by an
   * invalid attach and by an attach whose browser does not start, and by nothing else; its timers are then stopped.
   */
  lemma ClosedExactlyBy(s: State, a: Action, sid: SessionId)
    requires Reached(s) && sid in s.sessions && s.sessions[sid].listed && Enabled(s, a)
    ensures sid in Apply(s, a).sessions
    ensures !Apply(s, a).sessions[sid].listed <==> Ends(s, a, sid)
    ensures Ends(s, a, sid) ==> Apply(s, a).sessions[sid].attachAt == Apply(s, a).sessions[sid].idleAt == None
  {
    hide Reached, Inv, Apply, Enabled, Ends;
    ReachedInv(s);
    LaunchesArePeers(s, sid);
    EndStep(s, a, sid);
  }

  lemma EndStep(s: State, a: Action, sid: SessionId)
    requires sid in s.sessions && s.sessions[sid].listed && Enabled(s, a)
    requires s.sessions[sid].launches == if s.sessions[sid].peer then 1 else 0
    ensures sid in Apply(s, a).sessions
    ensures !Apply(s, a).sessions[sid].listed <==> Ends(s, a, sid)
    ensures Ends(s, a, sid) ==> Apply(s, a).sessions[sid].attachAt == Apply(s, a).sessions[sid].idleAt == None
  {
  }

  lemma ClosedStep(s: State, a: Action, sid: SessionId)
    requires sid in s.sessions && !s.sessions[sid].listed && Enabled(s, a)
    ensures sid in Apply(s, a).sessions
    ensures var x, y := s.sessions[sid], Apply(s, a).sessions[sid];
            !y.listed && y.closes == x.closes && y.launches == x.launches && y.peer == x.peer && y.written == x.written
  {
  }

  /** A closed session stays closed: no second close, no launch, no peer and no frame to the peer after it. */
  lemma {:induction false} CloseIsFinal(s: State, acts: seq<Action>, sid: SessionId)
    requires sid in s.sessions && !s.sessions[sid].listed && CanRun(s, acts)
    ensures sid in Run(s, acts).sessions
    ensures var x, y := s.sessions[sid], Run(s, acts).sessions[sid];
            !y.listed && y.closes == x.closes && y.launches == x.launches && y.peer == x.peer && y.written == x.written
    decreases |acts|
  {
    hide Enabled, Apply;
    if acts != [] {
      ClosedStep(s, acts[0], sid);
      CloseIsFinal(Apply(s, acts[0]), acts[1..], sid);
    }
  }

  /** The first valid attach gives a listed session its peer and launches the browser; a failed launch closes it. */
  lemma FirstAttach(s: State, sid: SessionId, opens: bool)
    requires Reached(s) && sid in s.sessions && s.sessions[sid].listed && !s.sessions[sid].peer
    ensures var t := Apply(s, Attach(sid, true, opens));
            var x := t.sessions[sid];
            && x.peer && x.ready && x.launches == 1 && x.listed == opens
            && !Enabled(t, FireAttach(sid))
            && (!opens ==> forall l | l in x.listeners :: l !in t.bound)
  {
    ReachedInv(s);
    assert Sound(s.sessions[sid], s.now);
  }

  /** A frame goes to the peer for an announced connection or a ping, on a listed session only. */
  lemma WrittenExactlyBy(s: State, a: Action, sid: SessionId)
    requires sid in s.sessions && Enabled(s, a)
    ensures sid in Apply(s, a).sessions
    ensures Apply(s, a).sessions[sid].written == s.sessions[sid].written +
            if && s.sessions[sid].listed
               && (a == Peer(sid, PingFrame) || (a.Announce? && s.conns[a.cid].session == sid))
            then 1 else 0
  {
  }

  /** A waiting connection goes on once its session has a peer and is dropped once the session is closed. */
  lemma WaitingEnds(s: State, cid: ConnId)
    requires Reached(s) && cid in s.conns && s.conns[cid].stage.Waiting?
    ensures s.conns[cid].session in s.sessions
    ensures var x := s.sessions[s.conns[cid].session];
            && (x.peer ==> Enabled(s, Proceed(cid)) && Apply(s, Proceed(cid)).conns[cid].stage.Registered?)
            && (!x.listed ==> Enabled(s, GiveUp(cid)) && Apply(s, GiveUp(cid)).conns[cid].stage.Gone?)
            && (x.listed && !x.peer ==> !Enabled(s, Proceed(cid)) && !Enabled(s, GiveUp(cid)))
  {
    ReachedInv(s);
    assert Sound(s.sessions[s.conns[cid].session], s.now);
  }

  // ----- a session pinged every second

  /** A session attached at time 0 with idle timeout `n`, after `k` seconds and `k` answered pings. */
  function Pinged(n: int, k: nat): State {
    State(k, map["s" := Session(true, [0], 0, 1, n, None, Some(n), 0, true, true, 1, 0, k)], {0}, map[])
  }

  lemma Then(s: State, a: Action)
    requires Reached(s) && Enabled(s, a)
    ensures Reached(Apply(s, a))
  {
    var acts :| CanRun(INIT, acts) && Run(INIT, acts) == s;
    Extended(INIT, acts, a);
    assert CanRun(INIT, acts + [a]) && Run(INIT, acts + [a]) == Apply(s, a);
  }

  lemma {:induction false} Extended(s: State, acts: seq<Action>, a: Action)
    requires CanRun(s, acts) && Enabled(Run(s, acts), a)
    ensures CanRun(s, acts + [a]) && Run(s, acts + [a]) == Apply(Run(s, acts), a)
    decreases |acts|
  {
    hide Enabled, Apply;
    if acts == [] {
      assert acts + [a] == [a] && [a][1..] == [];
    } else {
      Extended(Apply(s, acts[0]), acts[1..], a);
      assert (acts + [a])[1..] == acts[1..] + [a];
    }
  }

  lemma {:induction false} PingedReached(n: int, k: nat)
    requires 0 < n && k <= n
    ensures Reached(Pinged(n, k))
  {
    if k == 0 {
      AttachedReached(n);
    } else {
      PingedReached(n, k - 1);
      hide Reached;
      var s := Pinged(n, k - 1);
      Then(s, Tick);
      Then(s.(now := k), Peer("s", PingFrame));
      assert Apply(s.(now := k), Peer("s", PingFrame)) == Pinged(n, k);
    }
  }

  lemma AttachedReached(n: int)
    requires 0 < n
    ensures Reached(Pinged(n, 0))
  {
    assert CanRun(INIT, []) && Run(INIT, []) == INIT;
    hide Reached;
    var req := Request(1, [0], KEY_SIZE, 1, n);
    Then(INIT, Open("s", req));
    var s := Apply(INIT, Open("s", req));
    Then(s, Attach("s", true, true));
    assert Apply(s, Attach("s", true, true)) == Pinged(n, 0);
  }

  /** Whatever its idle timeout, a session that was pinged every second since its attach is closed by the idle timer. */
  lemma PingedToTheEnd(n: int)
    requires 0 < n
    ensures Reached(Pinged(n, n)) && Pinged(n, n).sessions["s"].listed && Pinged(n, n).sessions["s"].written == n
    ensures Enabled(Pinged(n, n), FireIdle("s")) && !Apply(Pinged(n, n), FireIdle("s")).sessions["s"].listed
    ensures !Enabled(Pinged(n, n), Tick)
  {
    PingedReached(n, n);
    var s := Pinged(n, n);
    assert Due(s.sessions["s"].idleAt, s.now);
  }

  lemma LiveNow(s: State, sid: SessionId)
    requires Inv(s) && sid in s.sessions && s.sessions[sid].listed
    ensures s.now <= s.sessions[sid].touched + s.sessions[sid].idleTO
  {
    assert Sound(s.sessions[sid], s.now);
  }

  // ----- the code

  class Tunnel {
    var now: int
    var sessions: map<SessionId, Session>
    var bound: set<Listener>
    ghost var conns: map<ConnId, Conn>

    ghost function View(): State
      reads this
    {
      State(now, sessions, bound, conns)
    }

    constructor ()
      ensures View() == INIT
    {
      now, sessions, bound, conns := 0, map[], {}, map[];
    }

    /** Closing one listener after the other. */
    method CloseListeners(ls: seq<Listener>)
      modifies this`bound
      ensures bound == old(bound) - Elements(ls)
    {
      var i := 0;
      while i < |ls|
        invariant 0 <= i <= |ls|
        invariant bound == old(bound) - Elements(ls[..i])
      {
        bound := bound - {ls[i]};
        i := i + 1;
      }
      assert ls[..i] == ls;
    }

    /** The second half of `Open`: the listeners are already bound when the key is checked. */
    method Open(sid: SessionId, req: Request) returns (ok: bool)
      requires Inv(View()) && Enabled(View(), Action.Open(sid, req))
      modifies this
      ensures ok == Reserves(req)
      ensures View() == Opened(old(View()), sid, req) && Inv(View())
      ensures !ok ==> View() == old(View())
    {
      ghost var s := View();
      OpenKeeps(s, sid, req);
      if req.targets == 0 || req.bound == [] {
        return false;
      }
      bound := bound + Elements(req.bound);
      if req.keySize != KEY_SIZE {
        CloseListeners(req.bound);
        assert bound == s.bound;
        return false;
      }
      var attachTO := if req.attachTO <= 0 then DEFAULT_ATTACH else req.attachTO;
      var idleTO := if req.idleTO <= 0 then DEFAULT_IDLE else req.idleTO;
      sessions := sessions[sid := Session(true, req.bound, now, attachTO, idleTO, Some(now + attachTO),
                                          Some(now + idleTO), now, false, false, 0, 0, 0)];
      return true;
    }

    method CloseSession(sid: SessionId)
      requires Inv(View())
      modifies this
      ensures View() == Closed(old(View()), sid) && Inv(View())
    {
      CloseKeeps(View(), sid);
      if sid !in sessions || !sessions[sid].listed {
        return;
      }
      var x := sessions[sid];
      CloseListeners(x.listeners);
      sessions := sessions[sid := x.(listed := false, attachAt := None, idleAt := None, closes := x.closes + 1)];
    }

    method Touch(sid: SessionId)
      requires Inv(View()) && sid in sessions
      modifies this
      ensures View() == Set(old(View()), sid, Touched(old(sessions)[sid], now)) && Inv(View())
    {
      ghost var s := View();
      assert Sound(sessions[sid], now);
      UpdateKeeps(s, sid, Touched(sessions[sid], now));
      var x := sessions[sid];
      if x.idleTO <= 0 {
        return;
      }
      sessions := sessions[sid := x.(idleAt := Some(now + x.idleTO), touched := now)];
    }

    /** Peer, ready signal, touch and the launch flag of the first valid attach. */
    method TakePeer(sid: SessionId)
      requires Inv(View()) && sid in sessions && sessions[sid].listed && !sessions[sid].peer
      modifies this
      ensures View() == Set(old(View()), sid, WithPeer(old(sessions)[sid], now)) && Inv(View())
    {
      var x := sessions[sid].(attachAt := None, peer := true, ready := true);
      assert Sound(sessions[sid], now);
      UpdateKeeps(View(), sid, x.(launches := 1));
      sessions := sessions[sid := x.(launches := if x.launches == 0 then 1 else x.launches)];
      Touch(sid);
    }

    /** `attach` from the session lookup on: validate, stop the attach timer, take the peer, launch the browser once. */
    method Attach(sid: SessionId, valid: bool, opens: bool) returns (launched: bool)
      requires Inv(View())
      modifies this
      ensures View() == Attached(old(View()), sid, valid, opens) && Inv(View())
      ensures launched <==> sid in old(sessions) && old(sessions)[sid].listed && valid && !old(sessions)[sid].peer
    {
      hide Apart, Conserved, Served;
      AttachKeeps(View(), sid, valid, opens);
      launched := false;
      if sid !in sessions || !sessions[sid].listed {
        return;
      }
      if !valid {
        CloseSession(sid);
        return;
      }
      assert Sound(sessions[sid], now);
      if sessions[sid].peer {
        sessions := sessions[sid := sessions[sid].(attachAt := None)];
        return;
      }
      TakePeer(sid);
      launched := true;
      if !opens {
        CloseSession(sid);
      }
    }
  }
}
