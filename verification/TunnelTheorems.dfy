/** What the tunnel promises, in every state of every run. */
module TunnelTheorems {
  import opened Bytes
  import opened Callback
  import opened Protocol
  import opened ProtocolInvariant
  import opened ProtocolPreserved
  import Codec
  import Frames
  import Transport

  ghost predicate Reached(s: State) {
    exists acts :: CanRun(INIT, acts) && Run(INIT, acts) == s
  }

  lemma ReachedView(s: State, id: Id)
    requires Reached(s)
    ensures StreamInv(ViewOf(s, id))
  {
    hide StreamInv, CanRun, Run;
    var acts :| CanRun(INIT, acts) && Run(INIT, acts) == s;
    Reachable(acts);
  }

  lemma ReachedReaders(s: State)
    requires Reached(s) && s.sv.up && s.cl.up
    ensures !s.sv.reader.Stopped? && !s.cl.reader.Stopped?
  {
    hide StreamInv, CanRun, Run;
    var acts :| CanRun(INIT, acts) && Run(INIT, acts) == s;
    Reachable(acts);
  }

  // ----- byte streams

  lemma {:induction false} OnlyConcat(a: seq<Frame>, b: seq<Frame>, id: Id)
    ensures Only(a + b, id) == Only(a, id) + Only(b, id)
  {
    if b == [] {
      assert a + b == a;
    } else {
      var init, last := b[..|b| - 1], b[|b| - 1];
      OnlyConcat(a, init, id);
      OnlyAppend(init, last, id);
      assert b == init + [last];
      OnlyAppend(a + init, last, id);
      assert a + b == (a + init) + [last];
    }
  }

  /** What a socket was given is what came off its lane, and that is what the other socket gave. */
  lemma Flow(e: End, l: Link, r: Reader, got: bytes)
    requires Receives(e.put, e.sock, e.inMap, l.past, r)
    requires Carried(l.All()) <= got
    ensures e.put <= got
  {
    hide Carried;
    CarriedPrefix(l.past, l.flight);
    var past := l.past;
    if HoldsData(r) && past != [] {
      assert past == past[..|past| - 1] + past[|past| - 1..];
      CarriedPrefix(past[..|past| - 1], past[|past| - 1..]);
    }
  }

  /** No byte is invented, reordered, duplicated or moved to another stream, in either direction. */
  lemma BytesArriveInOrder(s: State, id: Id)
    requires Reached(s)
    ensures s.cl.At(id).put <= s.sv.At(id).got
    ensures s.sv.At(id).put <= s.cl.At(id).got
    ensures !s.cl.At(id).proc.Absent? ==> !s.sv.At(id).proc.Absent? && s.cl.At(id).addr == s.sv.At(id).addr
  {
    ReachedView(s, id);
    hide Only, Announced, Talk, Datas, Carried, Receives, LooksLikeCallback;
    var v := ViewOf(s, id);
    Silent(v);
    Flow(v.cl, v.down, v.clReader, v.sv.got);
    Flow(v.sv, v.up, v.svReader, v.cl.got);
  }

  /** What a side has put on the channel never exceeds what it read. */
  lemma Silent(v: View)
    requires StreamInv(v)
    ensures Carried(v.down.All()) <= v.sv.got && Carried(v.up.All()) <= v.cl.got
  {
    hide Announced, Talk, Datas, Receives, LooksLikeCallback;
    if v.up.All() != [] && v.cl.proc.Absent? {
      assert v.up.All() == [v.up.All()[0]];
      CarriedAppend([], v.up.All()[0]);
      assert [] + v.up.All() == v.up.All();
    }
  }

  /** A socket is told that its peer is done only after every byte the peer ever sent was written to it. */
  lemma HalfCloseIsComplete(s: State, id: Id)
    requires Reached(s)
    ensures s.cl.At(id).sock.WriteShut? ==> s.cl.At(id).put == s.sv.At(id).got
    ensures s.sv.At(id).sock.WriteShut? ==> s.sv.At(id).put == s.cl.At(id).got
  {
    ReachedView(s, id);
    hide Only, LooksLikeCallback;
    var v := ViewOf(s, id);
    if v.cl.sock.WriteShut? {
      DownComplete(v);
    }
    if v.sv.sock.WriteShut? {
      UpComplete(v);
    }
  }

  lemma DownComplete(v: View)
    requires StreamInv(v) && v.cl.sock.WriteShut?
    ensures v.cl.put == v.sv.got
  {
    hide Carried, LooksLikeCallback;
    var n := |v.down.past|;
    assert v.down.All()[n - 1] == v.down.past[n - 1];
    DownFrame(v, n - 1);
    assert v.down.All() == v.down.past;
    assert !Announced(v.down.All(), v.sv.addr, false) by {
      var rest := v.down.All()[1..];
      assert n > 1 ==> rest[n - 2] == v.down.past[n - 1];
    }
  }

  lemma UpComplete(v: View)
    requires StreamInv(v) && v.sv.sock.WriteShut?
    ensures v.sv.put == v.cl.got
  {
    hide Carried, LooksLikeCallback;
    var n := |v.up.past|;
    assert v.up.All()[n - 1] == v.up.past[n - 1];
    UpFrame(v, n - 1);
    assert v.up.All() == v.up.past;
    assert !Datas(v.up.All());
  }

  // ----- what a pipe sends

  lemma {:induction false} CarriedConcat(a: seq<Frame>, b: seq<Frame>)
    ensures Carried(a + b) == Carried(a) + Carried(b)
  {
    assert Carried([]) == [];
    hide Carried;
    if b == [] {
      assert a + b == a;
    } else {
      var init, last := b[..|b| - 1], b[|b| - 1];
      CarriedConcat(a, init);
      CarriedAppend(init, last);
      CarriedAppend(a + init, last);
      assert b == init + [last] && a + b == (a + init) + [last];
    }
  }

  /** The frames of a pipe carry exactly the bytes it read, and end the stream exactly if the pipe stopped. */
  lemma FramesCarryBytes(id: Id, events: seq<Transport.Event>)
    ensures Carried(Transport.PipeFrames(id, events)) == Transport.PipeBytes(events, true)
    ensures (exists f | f in Transport.PipeFrames(id, events) :: f.Terminal()) <==>
            (exists i | 0 <= i < |events| :: events[i].Final(true))
  {
    PipeCarries(id, events);
    PipeEnds(id, events);
  }

  lemma {:induction false} PipeCarries(id: Id, events: seq<Transport.Event>)
    ensures Carried(Transport.PipeFrames(id, events)) == Transport.PipeBytes(events, true)
  {
    hide Carried, Transport.EventFrames;
    CarriedOne(Ping);
    if events != [] {
      var ev, rest := events[0], events[1..];
      EventCarries(id, ev);
      PipeCarries(id, rest);
      CarriedConcat(Transport.EventFrames(id, ev), Transport.PipeFrames(id, rest));
      assert Transport.EventFrames(id, ev) + [] == Transport.EventFrames(id, ev) && ev.chunk + [] == ev.chunk;
    }
  }

  lemma {:induction false} PipeEnds(id: Id, events: seq<Transport.Event>)
    ensures (exists f | f in Transport.PipeFrames(id, events) :: f.Terminal()) <==>
            (exists i | 0 <= i < |events| :: events[i].Final(true))
  {
    hide Carried, Transport.EventFrames;
    if events != [] {
      var ev, rest := events[0], events[1..];
      EventCarries(id, ev);
      PipeEnds(id, rest);
      if ev.Final(true) {
        assert Transport.EventFrames(id, ev) + [] == Transport.EventFrames(id, ev);
      } else {
        forall i | 0 <= i < |events| && events[i].Final(true) ensures rest[i - 1].Final(true) {
          assert events[i] == rest[i - 1];
        }
        forall i | 0 <= i < |rest| && rest[i].Final(true) ensures events[i + 1].Final(true) {
        }
      }
    }
  }

  lemma EventCarries(id: Id, ev: Transport.Event)
    ensures Carried(Transport.EventFrames(id, ev)) == ev.chunk
    ensures (exists f | f in Transport.EventFrames(id, ev) :: f.Terminal()) <==> ev.Final(true)
  {
    hide Carried;
    var data: seq<Frame> := if ev.chunk != [] then [Data(id, ev.chunk)] else [];
    var bye: seq<Frame> := match ev.tail case More => [] case AtEof => [Eof(id)] case Broken => [Frame.Close(id)];
    CarriedConcat(data, bye);
    CarriedOne(Data(id, ev.chunk));
    CarriedOne(Eof(id));
    CarriedOne(Frame.Close(id));
    assert ev.chunk + [] == ev.chunk;
    if bye != [] {
      assert (data + bye)[|data|] == bye[0] && bye[0].Terminal();
    }
  }

  lemma CarriedOne(f: Frame)
    ensures Carried([]) == [] && Carried([f]) == if f.Data? then f.payload else []
  {
    assert [f][..0] == [];
  }

  // ----- frame sequences

  /** Downstream a stream is `Open Data* (EOF|Close)?`, upstream `Data* (EOF|Close)?`. */
  lemma Conversations(s: State, id: Id)
    requires Reached(s)
    ensures var down := Only(s.s2c.All(), id);
            down == [] || Announced(down, s.sv.At(id).addr, false) || Announced(down, s.sv.At(id).addr, true)
    ensures var up := Only(s.c2s.All(), id);
            Talk(up, false) || Talk(up, true)
    ensures s.cl.At(id).proc.Absent? && Only(s.c2s.All(), id) != [] ==> Only(s.c2s.All(), id) == [Close(id)]
  {
    ReachedView(s, id);
    OnlyConcat(s.s2c.past, s.s2c.flight, id);
    OnlyConcat(s.c2s.past, s.c2s.flight, id);
    hide StreamInv, Only;
    var v := ViewOf(s, id);
    Grammar(v);
    if s.cl.At(id).proc.Absent? && v.up.All() != [] {
      OnlyMembers(s.c2s.All(), id, 0);
      assert v.up.All() == [v.up.All()[0]];
    }
  }

  lemma Grammar(v: View)
    requires StreamInv(v)
    ensures var down := v.down.All();
            down == [] || Announced(down, v.sv.addr, false) || Announced(down, v.sv.addr, true)
    ensures Talk(v.up.All(), false) || Talk(v.up.All(), true)
    ensures v.cl.proc.Absent? && v.up.All() != [] ==> |v.up.All()| == 1 && v.up.All()[0].Close?
  {
    hide Announced, Carried, LooksLikeCallback, Receives;
  }

  lemma {:induction false} OnlyMembers(fs: seq<Frame>, id: Id, i: nat)
    requires i < |Only(fs, id)|
    ensures Only(fs, id)[i].About(id) && Only(fs, id)[i] in fs
  {
    var init, last := fs[..|fs| - 1], fs[|fs| - 1];
    if i < |Only(init, id)| {
      OnlyMembers(init, id, i);
      assert Only(init, id)[i] in init;
    } else {
      assert Only(fs, id)[i] == last;
    }
  }

  /** Each side ends a stream at most once, and says nothing about it afterwards. */
  lemma AtMostOneEnd(s: State, id: Id, i: nat, j: nat)
    requires Reached(s)
    ensures i < j < |Only(s.s2c.All(), id)| ==> !Only(s.s2c.All(), id)[i].Terminal()
    ensures i < j < |Only(s.c2s.All(), id)| ==> !Only(s.c2s.All(), id)[i].Terminal()
  {
    ReachedView(s, id);
    OnlyConcat(s.s2c.past, s.s2c.flight, id);
    OnlyConcat(s.c2s.past, s.c2s.flight, id);
    hide Only, Carried, LooksLikeCallback, Receives;
    var v := ViewOf(s, id);
    if i < j < |v.down.All()| { DownFrame(v, i); }
    if i < j < |v.up.All()| { UpFrame(v, i); }
  }

  /** When the client registers a stream, it has never seen that id before. */
  lemma NeverOverwritten(s: State)
    requires Reached(s) && Enabled(s, Connect)
    ensures s.cl.At(s.cl.reader.id) == BLANK
    ensures s.sv.At(s.cl.reader.id).addr == s.cl.reader.addr
  {
    hide StreamInv;
    ReachedView(s, s.cl.reader.id);
    Unseen(ViewOf(s, s.cl.reader.id));
  }

  lemma Unseen(v: View)
    requires StreamInv(v) && v.clReader.Connecting?
    ensures v.cl == BLANK && v.sv.addr == v.clReader.addr
  {
    hide Announced, Talk, Datas, Carried, Receives, LooksLikeCallback;
  }

  /** The server never meets a frame type that would make it give up the session. */
  lemma NoForeignFrame(s: State)
    requires Reached(s)
    ensures !(s.sv.reader.Handling? && s.sv.reader.frame.Open?)
  {
    var r := s.sv.reader;
    if r.Handling? && r.frame.Open? {
      ReachedView(s, r.frame.id);
      NoOpenAtServer(ViewOf(s, r.frame.id));
    }
  }

  /** Every data frame on the wire fits the pipe buffer, so the missing size check of `WriteFrame` is never felt. */
  lemma DataFits(s: State, f: Frame)
    requires Reached(s)
    requires f.Data? && (f in s.s2c.All() || f in s.c2s.All())
    ensures 0 < |f.payload| <= 32768
  {
    ReachedView(s, f.id);
    OnlyConcat(s.s2c.past, s.s2c.flight, f.id);
    OnlyConcat(s.c2s.past, s.c2s.flight, f.id);
    var v := ViewOf(s, f.id);
    if f in s.s2c.All() {
      var i := OnlyFinds(s.s2c.All(), f, f.id);
      DownFits(v, i);
    } else {
      var i := OnlyFinds(s.c2s.All(), f, f.id);
      UpFits(v, i);
    }
  }

  /** In every run both channels are frame sequences that the wire format carries faithfully. */
  lemma ChannelsAreWires(s: State, mac: Codec.Mac, json: Codec.Json)
    requires Reached(s) && json.Lawful()
    requires forall id: Id | !s.sv.At(id).proc.Absent? :: |json.write(s.sv.At(id).addr)| <= Codec.MAX_PAYLOAD
    ensures var script := Frames.ParseAll(Frames.FrameAll(Codec.WrapAll(mac, json, s.s2c.All())));
            script.end.CleanEof? && Codec.UnwrapAll(mac, json, script.frames) == s.s2c.All()
    ensures var script := Frames.ParseAll(Frames.FrameAll(Codec.WrapAll(mac, json, s.c2s.All())));
            script.end.CleanEof? && Codec.UnwrapAll(mac, json, script.frames) == s.c2s.All()
  {
    hide Reached, Frames.ParseAll, Codec.UnwrapAll, Codec.WrapAll;
    forall f | f in s.s2c.All() || f in s.c2s.All() ensures Codec.Sendable(json, f) {
      if f.Data? {
        DataFits(s, f);
      }
      if f.Open? {
        OpenNamesListener(s, f);
      }
    }
    Codec.WireCarriesFrames(mac, json, s.s2c.All());
    Codec.WireCarriesFrames(mac, json, s.c2s.All());
  }

  /** The only open frames are the announcements of accepted connections. */
  lemma OpenNamesListener(s: State, f: Frame)
    requires Reached(s) && f.Open? && (f in s.s2c.All() || f in s.c2s.All())
    ensures f in s.s2c.All() && f.addr == s.sv.At(f.id).addr && !s.sv.At(f.id).proc.Absent?
  {
    ReachedView(s, f.id);
    OnlyConcat(s.s2c.past, s.s2c.flight, f.id);
    OnlyConcat(s.c2s.past, s.c2s.flight, f.id);
    hide StreamInv, Only;
    var v := ViewOf(s, f.id);
    Grammar(v);
    if f in s.s2c.All() {
      var i := OnlyFinds(s.s2c.All(), f, f.id);
      OpenIsFirst(v, i);
    } else {
      var i := OnlyFinds(s.c2s.All(), f, f.id);
      OpenIsFirst(v, i);
    }
  }

  lemma OpenIsFirst(v: View, i: nat)
    requires StreamInv(v)
    ensures i < |v.down.All()| && v.down.All()[i].Open? ==> i == 0
    ensures i < |v.up.All()| ==> !v.up.All()[i].Open?
    ensures v.down.All() != [] ==> !v.sv.proc.Absent?
  {
    hide Carried, LooksLikeCallback, Receives;
    if i < |v.down.All()| { DownFrame(v, i); }
    if i < |v.up.All()| { UpFrame(v, i); }
  }

  lemma DownFits(v: View, i: nat)
    requires ServerSends(v) && i < |v.down.All()| && v.down.All()[i].Data?
    ensures Fits(v.down.All()[i])
  {
    hide Carried;
    var fs := v.down.All();
    DownFrame(v, i);
    assert fs[1..][i - 1] == fs[i];
    assert i < |fs| - 1 ==> fs[1..][..|fs[1..]| - 1][i - 1] == fs[i];
  }

  lemma UpFits(v: View, i: nat)
    requires ClientSends(v) && i < |v.up.All()| && v.up.All()[i].Data?
    ensures Fits(v.up.All()[i])
  {
    hide Carried;
    var fs := v.up.All();
    assert i < |fs| - 1 ==> fs[..|fs| - 1][i] == fs[i];
  }

  lemma {:induction false} OnlyFinds(fs: seq<Frame>, f: Frame, id: Id) returns (i: nat)
    requires f in fs && f.About(id)
    ensures i < |Only(fs, id)| && Only(fs, id)[i] == f
  {
    var init, last := fs[..|fs| - 1], fs[|fs| - 1];
    if f == last {
      i := |Only(init, id)|;
    } else {
      assert fs == init + [last];
      assert f in init;
      i := OnlyFinds(init, f, id);
    }
  }

  // ----- no orphans

  ghost predicate Coming(fs: seq<Frame>, f: Frame) {
    f in fs
  }

  ghost predicate TerminalIn(fs: seq<Frame>, id: Id) {
    Coming(fs, Eof(id)) || Coming(fs, Close(id))
  }

  /** The reader is dealing with the last frame of the stream. */
  ghost predicate HoldsTerminal(r: Reader, past: seq<Frame>, id: Id) {
    && r.About(id)
    && ((r.Handling? && r.frame.Terminal()) || r.Shutting? || r.Closing? || (r.Removing? && Coming(past, Close(id))))
  }

  /**
   * While the connection is up, a stream in the server's map is one whose `Open` is still on its way, or that
   * the client still pipes, or whose end the client announced and the server has not finished handling, or that
   * the client half-closed.
   */
  lemma ServerHasNoOrphans(s: State, id: Id)
    requires Reached(s) && s.sv.up && s.cl.up && s.sv.At(id).inMap
    ensures || s.sv.At(id).proc.Registered?
            || Coming(s.s2c.flight, Open(id, s.sv.At(id).addr))
            || (s.cl.reader.About(id) && Arriving(s.cl.reader))
            || s.cl.At(id).proc.Piping()
            || TerminalIn(s.c2s.flight, id)
            || HoldsTerminal(s.sv.reader, s.c2s.past, id)
            || Coming(s.c2s.past, Eof(id))
  {
    ReachedView(s, id);
    hide StreamInv, Only;
    var v := ViewOf(s, id);
    if !v.sv.proc.Registered? && !v.cl.proc.Piping() && !Arriving(v.clReader) {
      if v.down.past == [] {
        ServerAnnounced(v);
        assert v.down.All()[0] == v.down.flight[0];
        OnlyMembers(s.s2c.flight, id, 0);
      } else {
        ClientTerminal(v);
        LastFrame(s.c2s, id);
        if v.up.flight == [] && v.up.past[|v.up.past| - 1].Close? {
          ServerHandlesClose(v);
        }
      }
    }
  }

  /** The last frame of a stream is on the channel, on one side of the reader or the other. */
  lemma LastFrame(l: Link, id: Id)
    requires NarrowLink(l, id).All() != [] && NarrowLink(l, id).All()[|NarrowLink(l, id).All()| - 1].Terminal()
    ensures var n := NarrowLink(l, id);
            || TerminalIn(l.flight, id)
            || (n.flight == [] && n.past != [] && n.past[|n.past| - 1].Close? && Coming(l.past, Close(id)))
            || Coming(l.past, Eof(id))
  {
    hide Only;
    var n := NarrowLink(l, id);
    if n.flight != [] {
      var k := |n.flight| - 1;
      assert n.All()[|n.All()| - 1] == n.flight[k];
      OnlyMembers(l.flight, id, k);
      assert n.flight[k] == Eof(id) || n.flight[k] == Close(id);
    } else {
      var k := |n.past| - 1;
      assert n.All()[|n.All()| - 1] == n.past[k];
      OnlyMembers(l.past, id, k);
      assert n.past[k] == Eof(id) || n.past[k] == Close(id);
    }
  }

  lemma ServerAnnounced(v: View)
    requires StreamInv(v) && v.sv.inMap && v.svUp && !v.sv.proc.Registered?
    ensures v.down.All() != [] && v.down.All()[0].Open? && v.down.All()[0].addr == v.sv.addr
  {
    hide Carried, LooksLikeCallback, Receives, Talk;
  }

  lemma ClientTerminal(v: View)
    requires StreamInv(v) && v.clUp && v.down.past != [] && !v.cl.proc.Piping() && !Arriving(v.clReader)
    ensures v.up.All() != [] && v.up.All()[|v.up.All()| - 1].Terminal()
  {
    hide Carried, LooksLikeCallback, Receives, Announced, Datas;
  }

  lemma ServerHandlesClose(v: View)
    requires StreamInv(v) && v.sv.inMap && v.up.past != [] && v.up.past[|v.up.past| - 1].Close?
    ensures (v.svReader.Handling? && v.svReader.frame.Terminal()) || v.svReader.Closing? || v.svReader.Removing?
  {
    hide Carried, LooksLikeCallback, Announced, Talk, Datas;
  }

  /** The mirror image for a stream in the client's map. */
  lemma ClientHasNoOrphans(s: State, id: Id)
    requires Reached(s) && s.sv.up && s.cl.up && s.cl.At(id).inMap
    ensures || s.sv.At(id).proc.Piping()
            || TerminalIn(s.s2c.flight, id)
            || HoldsTerminal(s.cl.reader, s.s2c.past, id)
            || Coming(s.s2c.past, Eof(id))
  {
    ReachedView(s, id);
    hide StreamInv, Only;
    var v := ViewOf(s, id);
    if !v.sv.proc.Piping() {
      ServerTerminal(v);
      LastFrame(s.s2c, id);
      if v.down.flight == [] && v.down.past[|v.down.past| - 1].Close? {
        ClientHandlesClose(v);
      }
    }
  }

  lemma ServerTerminal(v: View)
    requires StreamInv(v) && v.svUp && v.cl.inMap && !v.sv.proc.Piping()
    ensures v.down.All() != [] && v.down.All()[|v.down.All()| - 1].Terminal()
  {
    hide Carried, LooksLikeCallback, Receives, Datas;
    var fs := v.down.All();
    assert v.down.past != [];
    assert fs != [];
    assert fs[|fs| - 1] == fs[1..][|fs| - 2];
  }

  lemma ClientHandlesClose(v: View)
    requires StreamInv(v) && v.cl.inMap && v.down.past != [] && v.down.past[|v.down.past| - 1].Close?
    ensures (v.clReader.Handling? && v.clReader.frame.Terminal()) || v.clReader.Closing? || v.clReader.Removing?
  {
    hide Carried, LooksLikeCallback, Announced, Talk, Datas;
  }

  // ----- closing

  /**
   * After the session is closed, the only open browser sockets belong to accept loops that raced with the
   * close and to pipes that are in the middle of `dropStream`; the next step or two of those close them.
   */
  lemma ClosedSessionHoldsNothing(s: State, id: Id)
    requires Reached(s) && s.closed
    ensures s.sv.At(id).sock.Readable() ==>
              Enabled(s, Register(id)) || Enabled(s, Announce(id)) || Enabled(s, PipeClose(Server, id))
    ensures Enabled(s, Register(id)) ==> Enabled(Apply(s, Register(id)), Announce(id))
    ensures Enabled(s, Announce(id)) ==> Apply(s, Announce(id)).sv.At(id).sock == Shut
    ensures Enabled(s, PipeClose(Server, id)) ==> Apply(s, PipeClose(Server, id)).sv.At(id).sock == Shut
  {
    ReachedView(s, id);
    hide Only, Carried, LooksLikeCallback, Receives, Announced, Talk, Datas;
    assert ServerOwns(ViewOf(s, id));
  }

  /** The worker ends itself only after a callback request went to the local service and its whole answer back. */
  lemma FinishedAfterAnswer(s: State)
    requires Reached(s) && s.finisher.Some?
    ensures var id := s.finisher.value;
            && LooksLikeCallback(s.sv.At(id).got)
            && s.cl.At(id).got != []
            && Carried(Only(s.c2s.All(), id)) == s.cl.At(id).got
            && !s.cl.up
  {
    var id := s.finisher.value;
    ReachedView(s, id);
    OnlyConcat(s.c2s.past, s.c2s.flight, id);
    BytesArriveInOrder(s, id);
    hide Only, Carried, LooksLikeCallback, Receives, Announced, Talk, Datas;
    hide StreamInv, Detects;
    FinisherView(ViewOf(s, id));
    StillDetected(s.cl.At(id).reqBuf, s.sv.At(id).got);
  }

  lemma FinisherView(v: View)
    requires StreamInv(v) && v.finisher
    ensures LooksLikeCallback(v.cl.reqBuf) && v.cl.reqBuf <= v.cl.put
    ensures v.cl.got != [] && Carried(v.up.All()) == v.cl.got && !v.clUp
  {
    hide ServerSends, ClientSends, Stage, ClientReceives, ServerReceives, ServerOwns, ClientOwns;
    hide Carried, LooksLikeCallback;
  }

  lemma StillDetected(req: bytes, all: bytes)
    requires LooksLikeCallback(req) && req <= all
    ensures LooksLikeCallback(all)
  {
    hide LooksLikeCallback;
    assert all == req + all[|req|..];
    DetectionGrows(req, all[|req|..]);
  }

  /** The flag of a stream is the predicate on its buffer, and the buffer is an initial part of the browser's bytes. */
  lemma DetectionIsExact(s: State, id: Id)
    requires Reached(s)
    ensures var e := s.cl.At(id);
            && e.oauthDone == LooksLikeCallback(e.reqBuf)
            && e.reqBuf <= e.put <= s.sv.At(id).got
            && (e.sock.Readable() ==> e.reqBuf == e.put || |e.reqBuf| >= 8192)
  {
    ReachedView(s, id);
    BytesArriveInOrder(s, id);
    hide Only, Carried, LooksLikeCallback, Receives, Announced, Talk, Datas;
    assert Detects(ViewOf(s, id));
  }

  // ----- at rest

  /** The steps that need nothing from outside: everything but new connections, timers, failures and live reads. */
  predicate Own(s: State, a: Action) {
    match a
    case PipeRead(who, id, _, _) => Mine(s, who).At(id).sock.Shut?
    case Accept(_, _) => false
    case ReadError(_) => false
    case LinkFail(_) => false
    case SessionClose => false
    case CloseAll => false
    case Tick => false
    case _ => true
  }

  /** Neither side can move until a socket, a browser or a timer does something. */
  ghost predicate AtRest(s: State) {
    forall a: Action | Own(s, a) :: !Enabled(s, a)
  }

  lemma Stuck(s: State, a: Action)
    requires AtRest(s) && Own(s, a)
    ensures !Enabled(s, a)
  {
  }

  lemma RestingReader(s: State, who: Who)
    requires AtRest(s)
    ensures var r := Mine(s, who).reader;
            r.Stopped? || (r.Idle? && Incoming(s, who).flight == []) || (who.Server? && r.Connecting?)
  {
    hide AtRest;
    Stuck(s, Take(who));
    Stuck(s, Handle(who, true));
    Stuck(s, WriteSock(who, false, 0));
    Stuck(s, ShutSock(who));
    Stuck(s, CloseSock(who));
    Stuck(s, Remove(who));
    Stuck(s, Connect);
    Stuck(s, Reply(who));
  }

  lemma NoDialAtServer(v: View)
    requires StreamInv(v)
    ensures !v.svReader.Connecting?
  {
  }

  lemma RestingEnd(s: State, who: Who, id: Id)
    requires AtRest(s)
    ensures var e := Mine(s, who).At(id);
            || e.proc.Absent? || e.proc.Halted? || (e.proc.Reading? && !e.sock.Shut?)
            || (if who.Server? then e.proc.Finishing? else e.proc.Accepted? || e.proc.Registered?)
  {
    assert !Enabled(s, Register(id)) && !Enabled(s, Announce(id));
    assert !Enabled(s, PipeSend(who, id)) && !Enabled(s, PipeEnd(who, id)) && !Enabled(s, PipeDrop(who, id));
    assert !Enabled(s, PipeClose(who, id));
    assert !Enabled(s, PipeFinish(id));
    assert Own(s, PipeRead(who, id, [], Broken)) ==> !Enabled(s, PipeRead(who, id, [], Broken));
  }

  lemma ProperProcs(v: View)
    requires StreamInv(v)
    ensures !v.sv.proc.Finishing? && !v.cl.proc.Accepted? && !v.cl.proc.Registered?
  {
  }

  /**
   * At rest over a working connection every socket that is still open has been given every byte read at the other
   * end, and the two maps hold the same streams, except those whose socket was half-closed because the other side
   * is done.
   */
  lemma RestIsSettled(s: State, id: Id)
    requires Reached(s) && AtRest(s) && s.sv.up && s.cl.up
    ensures s.s2c.flight == [] && s.c2s.flight == []
    ensures s.cl.At(id).sock.Readable() ==> s.cl.At(id).put == s.sv.At(id).got
    ensures s.sv.At(id).sock.Readable() ==> s.sv.At(id).put == s.cl.At(id).got
    ensures s.sv.At(id).inMap ==> s.cl.At(id).inMap || s.sv.At(id).sock.WriteShut?
    ensures s.cl.At(id).inMap ==> s.sv.At(id).inMap || s.cl.At(id).sock.WriteShut?
  {
    hide StreamInv, AtRest;
    if s.sv.reader.Connecting? {
      ReachedView(s, s.sv.reader.id);
      NoDialAtServer(ViewOf(s, s.sv.reader.id));
    }
    RestingReader(s, Server);
    RestingReader(s, Client);
    ReachedReaders(s);
    RestingEnd(s, Server, id);
    RestingEnd(s, Client, id);
    ReachedView(s, id);
    var v := ViewOf(s, id);
    assert v.down.flight == [] && v.up.flight == [] && v.down.past == v.down.All() && v.up.past == v.up.All();
    ProperProcs(v);
    RestView(v);
  }

  /** At rest after a close, every browser socket that was ever registered is closed. */
  lemma ClosedSessionSettles(s: State, id: Id)
    requires Reached(s) && AtRest(s) && s.closed
    ensures s.sv.At(id).proc.Absent? || s.sv.At(id).sock.Shut?
  {
    hide StreamInv, AtRest;
    RestingEnd(s, Server, id);
    ReachedView(s, id);
    ProperProcs(ViewOf(s, id));
    ClosedView(ViewOf(s, id));
  }

  lemma ClosedView(v: View)
    requires StreamInv(v) && v.closed
    ensures v.sv.sock.Shut? || v.sv.proc.Absent? || v.sv.proc.Accepted? || v.sv.proc.Registered? || v.sv.proc.Leaving?
  {
  }

  lemma RestView(v: View)
    requires StreamInv(v) && v.svUp && v.clUp && v.svReader.Idle? && v.clReader.Idle?
    requires v.down.past == v.down.All() && v.up.past == v.up.All()
    requires v.sv.proc.Absent? || v.sv.proc.Halted? || (v.sv.proc.Reading? && !v.sv.sock.Shut?)
    requires v.cl.proc.Absent? || v.cl.proc.Halted? || (v.cl.proc.Reading? && !v.cl.sock.Shut?)
    ensures v.cl.sock.Readable() ==> v.cl.put == v.sv.got
    ensures v.sv.sock.Readable() ==> v.sv.put == v.cl.got
    ensures v.sv.inMap ==> v.cl.inMap || v.sv.sock.WriteShut?
    ensures v.cl.inMap ==> v.sv.inMap || v.cl.sock.WriteShut?
  {
    hide LooksLikeCallback, Carried;
    var down, up := v.down.All(), v.up.All();
    if v.sv.inMap && !v.cl.inMap {
      ServerAnnounced(v);
      ClientTerminal(v);
    }
    if v.cl.inMap && !v.sv.inMap {
      ServerTerminal(v);
    }
    if v.cl.proc.Absent? && up != [] {
      assert up == [up[0]];
      CarriedAppend([], up[0]);
      assert [] + up == up;
    }
  }

  // ----- a complete exchange

  lemma Then(s: State, a: Action)
    requires Reached(s) && Enabled(s, a)
    ensures Reached(Apply(s, a))
  {
    hide CanRun, Run, Enabled, Apply;
    var acts :| CanRun(INIT, acts) && Run(INIT, acts) == s;
    assert Transport.Path(INIT, acts, s);
    Transport.Extends(INIT, acts, s, a);
    assert CanRun(INIT, acts + [a]) && Run(INIT, acts + [a]) == Apply(s, a);
  }

  /** The client takes the next frame off the channel and looks its stream up. */
  lemma ClientTakes(s: State) returns (t: State)
    requires Reached(s) && s.cl.reader.Idle? && s.s2c.flight != []
    requires !s.s2c.flight[0].Ping? && !s.s2c.flight[0].Pong?
    ensures var f := s.s2c.flight[0];
            t == s.(s2c := Link(s.s2c.past + [f], s.s2c.flight[1..]),
                    cl := s.cl.(reader := Dispatch(f, Client, s.cl.At(f.id).inMap, true)))
    ensures Reached(t)
  {
    hide Reached, Dispatch;
    Then(s, Take(Client));
    t := Apply(s, Take(Client));
    Then(t, Handle(Client, true));
    t := Apply(t, Handle(Client, true));
  }

  /** A connection is accepted and announced. */
  lemma AnnouncedFirst() returns (s: State)
    ensures Reached(s) && s.sv.up && s.cl == INIT.cl && s.s2c == Link([], [Open(1, "")])
    ensures s.sv.At(1) == BLANK.(proc := Reading, inMap := true, sock := Live)
  {
    Transport.Stay(INIT);
    assert CanRun(INIT, []) && Run(INIT, []) == INIT;
    hide Reached;
    Then(INIT, Accept(1, ""));
    s := Apply(INIT, Accept(1, ""));
    Then(s, Register(1));
    s := Apply(s, Register(1));
    Then(s, Announce(1));
    s := Apply(s, Announce(1));
  }

  /** The client takes the announcement off the channel and dials. */
  lemma Connected() returns (s: State)
    ensures Reached(s) && s.sv.up && s.cl.up && s.s2c.flight == [] && s.cl.reader.Idle?
    ensures s.sv.At(1) == BLANK.(proc := Reading, inMap := true, sock := Live)
    ensures s.cl.At(1) == BLANK.(proc := Reading, inMap := true, sock := Live)
  {
    hide Reached;
    s := AnnouncedFirst();
    s := ClientTakes(s);
    Then(s, Connect);
    s := Apply(s, Connect);
  }

  /** The browser sends a chunk and closes its write side. */
  lemma BrowserSends(s: State, chunk: bytes) returns (t: State)
    requires Reached(s) && s.sv.up && s.s2c.flight == [] && 0 < |chunk| <= PIPE_BUFFER
    requires s.sv.At(1) == BLANK.(proc := Reading, inMap := true, sock := Live)
    ensures Reached(t) && t.sv.up && t.cl == s.cl && t.sv.At(1).got == chunk
    ensures t.s2c.flight == [Data(1, chunk), Eof(1)]
  {
    hide Reached;
    Then(s, PipeRead(Server, 1, chunk, AtEof));
    t := Apply(s, PipeRead(Server, 1, chunk, AtEof));
    Then(t, PipeSend(Server, 1));
    t := Apply(t, PipeSend(Server, 1));
    Then(t, PipeEnd(Server, 1));
    t := Apply(t, PipeEnd(Server, 1));
  }

  /** A browser connects, the client dials, and the browser sends a chunk and half-closes: all of it arrives. */
  lemma ChunkGoesThrough(chunk: bytes) returns (s: State)
    requires 0 < |chunk| <= PIPE_BUFFER
    ensures Reached(s) && s.sv.up && s.cl.up
    ensures s.sv.At(1).got == chunk && s.cl.At(1).put == chunk && s.cl.At(1).sock.WriteShut? && s.cl.At(1).inMap
  {
    hide Reached;
    s := Connected();
    s := BrowserSends(s, chunk);
    s := ClientTakes(s);
    Then(s, WriteSock(Client, true, 0));
    s := Apply(s, WriteSock(Client, true, 0));
    s := ClientTakes(s);
    Then(s, ShutSock(Client));
    s := Apply(s, ShutSock(Client));
  }

  // ----- stream ids

  /** The first `n` accepts get pairwise different ids exactly while `n` is within the id space. */
  lemma IdsDistinct(n: nat)
    ensures (forall i, j | 1 <= i < j <= n :: NthId(i) != NthId(j)) <==> n <= ID_SPACE
  {
    if n > ID_SPACE {
      assert NthId(1) == NthId(1 + ID_SPACE);
    }
  }
}
