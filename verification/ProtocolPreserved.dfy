/** Every step of the tunnel keeps the invariant. */
module ProtocolPreserved {
  import opened Bytes
  import opened Callback
  import opened Protocol
  import opened ProtocolInvariant

  // ----- frame sequences

  lemma OnlyAppend(fs: seq<Frame>, f: Frame, id: Id)
    ensures Only(fs + [f], id) == Only(fs, id) + if f.About(id) then [f] else []
  {
    assert (fs + [f])[..|fs|] == fs;
  }

  lemma {:induction false} OnlyHead(fs: seq<Frame>, id: Id)
    requires fs != []
    ensures Only(fs, id) == (if fs[0].About(id) then [fs[0]] else []) + Only(fs[1..], id)
  {
    var init, last := fs[..|fs| - 1], fs[|fs| - 1];
    if init == [] {
      assert fs == [last];
      assert Only(init, id) == [];
    } else {
      OnlyHead(init, id);
      assert fs[1..] == init[1..] + [last];
      OnlyAppend(init[1..], last, id);
    }
  }

  lemma CarriedAppend(fs: seq<Frame>, f: Frame)
    ensures Carried(fs + [f]) == Carried(fs) + if f.Data? then f.payload else []
  {
    assert (fs + [f])[..|fs|] == fs;
  }

  lemma {:induction false} CarriedPrefix(fs: seq<Frame>, more: seq<Frame>)
    ensures Carried(fs) <= Carried(fs + more)
  {
    if more == [] {
      assert fs + more == fs;
    } else {
      var init, last := more[..|more| - 1], more[|more| - 1];
      CarriedPrefix(fs, init);
      assert fs + more == (fs + init) + [last];
      CarriedAppend(fs + init, last);
    }
  }

  /** What appending a frame does to a conversation. */
  lemma Extend(l: Link, f: Frame)
    ensures var fs := l.(flight := l.flight + [f]).All();
            && fs == l.All() + [f]
            && Carried(fs) == Carried(l.All()) + (if f.Data? then f.payload else [])
            && (Datas(l.All()) && Fits(f) ==> Datas(fs))
            && (Datas(l.All()) && f.Terminal() ==> Talk(fs, true))
            && (forall addr | Announced(l.All(), addr, false) && Fits(f) :: Announced(fs, addr, false))
            && (forall addr | Announced(l.All(), addr, false) && f.Terminal() :: Announced(fs, addr, true))
            && (l.All() == [] && f.Open? ==> Announced(fs, f.addr, false))
  {
    hide Carried, Datas, Talk, Announced, Fits;
    var fs := l.(flight := l.flight + [f]).All();
    assert fs == l.All() + [f];
    CarriedAppend(l.All(), f);
    TalkAppend(l.All(), f);
    forall addr | Announced(l.All(), addr, false)
      ensures Fits(f) ==> Announced(fs, addr, false)
      ensures f.Terminal() ==> Announced(fs, addr, true)
    {
      AnnouncedAppend(l.All(), f, addr);
    }
    if l.All() == [] && f.Open? {
      assert fs == [f];
      OpenAnnounces(f);
    }
  }

  lemma TalkAppend(fs: seq<Frame>, f: Frame)
    ensures Datas(fs) && Fits(f) ==> Datas(fs + [f])
    ensures Datas(fs) && f.Terminal() ==> Talk(fs + [f], true)
  {
    assert (fs + [f])[..|fs|] == fs;
  }

  lemma AnnouncedAppend(fs: seq<Frame>, f: Frame, addr: string)
    requires Announced(fs, addr, false)
    ensures Fits(f) ==> Announced(fs + [f], addr, false)
    ensures f.Terminal() ==> Announced(fs + [f], addr, true)
  {
    TalkAppend(fs[1..], f);
    assert (fs + [f])[1..] == fs[1..] + [f];
  }

  lemma OpenAnnounces(f: Frame)
    requires f.Open?
    ensures Announced([f], f.addr, false)
  {
  }

  // ----- positions in a conversation

  /** Downstream only the first frame opens, and a terminal frame is the last. */
  lemma DownFrame(v: View, i: nat)
    requires ServerSends(v) && i < |v.down.All()|
    ensures v.down.All()[i].Open? <==> i == 0
    ensures v.down.All()[i].Terminal() ==> i == |v.down.All()| - 1
  {
    var fs := v.down.All();
    if i > 0 {
      var rest := fs[1..];
      assert rest[i - 1] == fs[i];
      assert i < |fs| - 1 ==> rest[..|rest| - 1][i - 1] == fs[i];
    }
  }

  /** Upstream no frame opens, and a terminal frame is the last. */
  lemma UpFrame(v: View, i: nat)
    requires ClientSends(v) && i < |v.up.All()|
    ensures !v.up.All()[i].Open?
    ensures v.up.All()[i].Terminal() ==> i == |v.up.All()| - 1
  {
    var fs := v.up.All();
    assert i < |fs| - 1 ==> fs[..|fs| - 1][i] == fs[i];
  }

  /** Closing a socket or leaving the map never breaks what was received. */
  lemma ShutReceives(put: bytes, sock: Sock, inMap: bool, past: seq<Frame>, r: Reader)
    requires Receives(put, sock, inMap, past, r)
    ensures Receives(put, Shut, inMap, past, r) && Receives(put, Shut, false, past, r)
    ensures Receives(put, sock, false, past, r)
    ensures r.Closing? ==> Receives(put, Shut, inMap, past, Removing(r.id))
    ensures r.Removing? ==> sock.Shut? && Receives(put, Shut, false, past, Idle)
    ensures r.Shutting? ==> Receives(put, if sock.Live? then WriteShut else sock, inMap, past, Idle)
  {
    hide Carried;
  }

  lemma ShutBoth(v: View)
    requires StreamInv(v)
    ensures Receives(v.cl.put, Shut, v.cl.inMap, v.down.past, v.clReader)
    ensures Receives(v.cl.put, Shut, false, v.down.past, v.clReader)
    ensures Receives(v.cl.put, v.cl.sock, false, v.down.past, v.clReader)
    ensures Receives(v.sv.put, Shut, v.sv.inMap, v.up.past, v.svReader)
    ensures Receives(v.sv.put, Shut, false, v.up.past, v.svReader)
    ensures Receives(v.sv.put, v.sv.sock, false, v.up.past, v.svReader)
  {
    hide Receives;
    ShutReceives(v.cl.put, v.cl.sock, v.cl.inMap, v.down.past, v.clReader);
    ShutReceives(v.sv.put, v.sv.sock, v.sv.inMap, v.up.past, v.svReader);
  }

  // ----- one stream moves, the others see nothing

  function Put(v: View, who: Who, e: End): View {
    if who.Server? then v.(sv := e) else v.(cl := e)
  }

  function Hold(v: View, who: Who, r: Reader): View {
    if who.Server? then v.(svReader := r) else v.(clReader := r)
  }

  function Grown(l: Link, f: Frame): Link {
    l.(flight := l.flight + [f])
  }

  /** `Emit`, as the stream of the frame sees it. */
  function Sent(v: View, who: Who, f: Frame): View {
    if who.Server? then (if v.svUp then v.(down := Grown(v.down, f)) else v)
    else (if v.clUp then v.(up := Grown(v.up, f)) else v)
  }

  function EndOf(v: View, who: Who): End {
    if who.Server? then v.sv else v.cl
  }

  function ReaderOf(v: View, who: Who): Reader {
    if who.Server? then v.svReader else v.clReader
  }

  function UpOf(v: View, who: Who): bool {
    if who.Server? then v.svUp else v.clUp
  }

  /** If every other stream sees the same as before, its own invariant is all that is left to show. */
  lemma Lift(s: State, t: State, id: Id)
    requires Inv(s)
    requires s.accepts == t.accepts && s.closed == t.closed && s.finisher == t.finisher
    requires s.sv.up == t.sv.up && s.cl.up == t.cl.up
    requires t.sv.reader.Stopped? ==> s.sv.reader.Stopped?
    requires t.cl.reader.Stopped? ==> s.cl.reader.Stopped?
    requires s.sv.At(id).proc.Absent? == t.sv.At(id).proc.Absent?
    requires forall j: Id | j != id :: ViewOf(t, j) == ViewOf(s, j)
    requires StreamInv(ViewOf(t, id))
    ensures Inv(t)
  {
    hide StreamInv, Only;
    forall j: Id ensures t.sv.At(j).proc.Absent? <==> s.sv.At(j).proc.Absent? {
      if j != id {
        assert ViewOf(t, j).sv == ViewOf(s, j).sv;
      }
    }
    forall j: Id ensures StreamInv(ViewOf(t, j)) {
      assert StreamInv(ViewOf(s, j));
    }
  }

  function SentAll(v: View, who: Who, out: seq<Frame>): View {
    if out == [] then v else Sent(v, who, out[0])
  }

  /** The result of a step by `who` on one stream: at most one frame out, a new end, a new reader state. */
  function Moved(s: State, who: Who, out: seq<Frame>, id: Id, e: End, r: Reader): State {
    SetReader(SetEnd(if out == [] then s else Emit(s, who, out[0]), who, id, e), who, r)
  }

  lemma Moves(s: State, who: Who, out: seq<Frame>, id: Id, e: End, r: Reader)
    requires Inv(s)
    requires |out| <= 1 && (out != [] ==> out[0].About(id))
    requires r == Mine(s, who).reader || (!r.Stopped? && OnlyAbout(Mine(s, who).reader, id) && OnlyAbout(r, id))
    requires who.Server? ==> (s.sv.At(id).proc.Absent? <==> e.proc.Absent?)
    requires StreamInv(Hold(Put(SentAll(ViewOf(s, id), who, out), who, e), who, Narrow(r, id)))
    ensures Inv(Moved(s, who, out, id, e, r))
  {
    hide StreamInv, Only, ViewOf;
    forall j: Id
      ensures ViewOf(Moved(s, who, out, id, e, r), j) ==
              if j == id then Hold(Put(SentAll(ViewOf(s, j), who, out), who, e), who, Narrow(r, id)) else ViewOf(s, j)
    {
      MovedView(s, who, out, id, e, r, j);
    }
    Lift(s, Moved(s, who, out, id, e, r), id);
  }

  lemma MovedView(s: State, who: Who, out: seq<Frame>, id: Id, e: End, r: Reader, j: Id)
    requires |out| <= 1 && (out != [] ==> out[0].About(id))
    requires r == Mine(s, who).reader || (OnlyAbout(Mine(s, who).reader, id) && OnlyAbout(r, id))
    ensures ViewOf(Moved(s, who, out, id, e, r), j) ==
            if j == id then Hold(Put(SentAll(ViewOf(s, j), who, out), who, e), who, Narrow(r, id)) else ViewOf(s, j)
  {
    hide Only;
    if out != [] {
      EmitView(s, who, out[0], j);
    }
  }

  predicate OnlyAbout(r: Reader, id: Id) {
    forall j: Id | j != id :: !r.About(j)
  }

  // ----- steps of the server's accept loop

  lemma AcceptLocal(v: View, addr: string)
    requires StreamInv(v) && v.sv.proc.Absent?
    ensures StreamInv(v.(sv := BLANK.(proc := Accepted, addr := addr, sock := Live)))
  {
  }

  lemma NextId(n: nat, id: Id)
    requires n < ID_SPACE && id == NthId(n + 1)
    ensures !Allocated(id, n)
    ensures forall j: Id :: Allocated(j, n + 1) <==> Allocated(j, n) || j == id
  {
    if n + 1 < ID_SPACE {
      assert id == n + 1;
    } else {
      assert id == 0;
    }
  }

  lemma AcceptKeeps(s: State, id: Id, addr: string)
    requires Inv(s) && Enabled(s, Accept(id, addr))
    ensures Inv(DoAccept(s, id, addr))
  {
    hide StreamInv, Only;
    var t := DoAccept(s, id, addr);
    NextId(s.accepts, id);
    forall j: Id ensures t.sv.At(j).proc.Absent? <==> !Allocated(j, t.accepts) {
      assert s.sv.At(j).proc.Absent? <==> !Allocated(j, s.accepts);
    }
    assert s.sv.At(id).proc.Absent?;
    forall j: Id ensures StreamInv(ViewOf(t, j)) {
      var v := ViewOf(s, j);
      if j == id {
        AcceptLocal(v, addr);
        assert ViewOf(t, j) == v.(sv := BLANK.(proc := Accepted, addr := addr, sock := Live));
      } else {
        assert ViewOf(t, j) == v;
      }
    }
  }

  lemma RegisterLocal(v: View)
    requires StreamInv(v) && v.sv.proc.Accepted?
    ensures StreamInv(v.(sv := v.sv.(proc := Registered, inMap := true)))
  {
  }

  lemma RegisterKeeps(s: State, id: Id)
    requires Inv(s) && Enabled(s, Register(id))
    ensures Inv(DoRegister(s, id))
  {
    hide StreamInv, Only;
    RegisterLocal(ViewOf(s, id));
    Moves(s, Server, [], id, s.sv.At(id).(proc := Registered, inMap := true), s.sv.reader);
  }

  lemma AnnounceLocal(v: View, f: Frame)
    requires StreamInv(v) && v.sv.proc.Registered? && f.Open? && f.addr == v.sv.addr
    ensures v.svUp ==> StreamInv(Put(Sent(v, Server, f), Server, v.sv.(proc := Reading)))
    ensures !v.svUp ==> StreamInv(Put(v, Server, v.sv.(proc := Halted, sock := Shut)))
  {
    Extend(v.down, f);
  }

  lemma AnnounceKeeps(s: State, id: Id)
    requires Inv(s) && Enabled(s, Announce(id))
    ensures Inv(DoAnnounce(s, id))
  {
    hide StreamInv, Only;
    var e := s.sv.At(id);
    var f := Open(id, e.addr);
    AnnounceLocal(ViewOf(s, id), f);
    if s.sv.up {
      Moves(s, Server, [f], id, e.(proc := Reading), s.sv.reader);
    } else {
      Moves(s, Server, [], id, e.(proc := Halted, sock := Shut), s.sv.reader);
      EndSessionKeeps(SetEnd(s, Server, id, e.(proc := Halted, sock := Shut)));
    }
  }

  // ----- frames entering a channel

  lemma EmitView(s: State, who: Who, f: Frame, j: Id)
    ensures ViewOf(Emit(s, who, f), j) == if f.About(j) then Sent(ViewOf(s, j), who, f) else ViewOf(s, j)
  {
    hide Only;
    if who.Server? { OnlyAppend(s.s2c.flight, f, j); } else { OnlyAppend(s.c2s.flight, f, j); }
  }

  // ----- closing

  lemma EndSessionLocal(v: View)
    requires StreamInv(v)
    ensures StreamInv(v.(sv := Cut(v.sv), svUp := false, closed := true))
  {
    hide Carried, Announced, Talk, Datas, LooksLikeCallback, Receives;
    ShutBoth(v);
  }

  lemma EndSessionKeeps(s: State)
    requires Inv(s)
    ensures Inv(EndSession(s))
  {
    hide StreamInv, Only;
    var t := EndSession(s);
    forall j: Id ensures StreamInv(ViewOf(t, j)) {
      var v := ViewOf(s, j);
      if !s.closed {
        EndSessionLocal(v);
        assert ViewOf(t, j) == v.(sv := Cut(v.sv), svUp := false, closed := true);
      }
    }
  }

  lemma EndClientLocal(v: View)
    requires StreamInv(v)
    ensures StreamInv(v.(cl := Cut(v.cl).(inMap := false)))
  {
    hide Carried, Announced, Talk, Datas, LooksLikeCallback, Receives;
    ShutBoth(v);
  }

  lemma EndClientKeeps(s: State)
    requires Inv(s)
    ensures Inv(EndClient(s))
  {
    hide StreamInv, Only;
    forall j: Id ensures StreamInv(ViewOf(EndClient(s), j)) {
      var v := ViewOf(s, j);
      EndClientLocal(v);
      assert ViewOf(EndClient(s), j) == v.(cl := Cut(v.cl).(inMap := false));
    }
  }

  lemma LinkFailLocal(v: View)
    requires StreamInv(v)
    ensures StreamInv(v.(svUp := false)) && StreamInv(v.(clUp := false))
  {
    hide Carried, Announced, Talk, Datas, LooksLikeCallback, Receives;
  }

  lemma LinkFailKeeps(s: State, who: Who)
    requires Inv(s)
    ensures Inv(SetSide(s, who, Mine(s, who).(up := false)))
  {
    hide StreamInv, Only;
    var t := SetSide(s, who, Mine(s, who).(up := false));
    forall j: Id ensures StreamInv(ViewOf(t, j)) {
      var v := ViewOf(s, j);
      LinkFailLocal(v);
      assert ViewOf(t, j) == if who.Server? then v.(svUp := false) else v.(clUp := false);
    }
  }

  // ----- steps of a pipe

  lemma PipeReadLocal(v: View, who: Who, chunk: bytes, tail: Tail)
    requires StreamInv(v) && EndOf(v, who).proc.Reading? && |chunk| <= PIPE_BUFFER
    ensures var e := EndOf(v, who);
            var proc := if chunk != [] then Sending(chunk, tail) else AfterBytes(tail);
            StreamInv(Put(v, who, e.(got := e.got + chunk, proc := proc)))
  {
    hide Carried, Announced, Talk, Datas, LooksLikeCallback, Receives;
    assert EndOf(v, who).got + [] == EndOf(v, who).got;
  }

  lemma PipeReadKeeps(s: State, who: Who, id: Id, chunk: bytes, tail: Tail)
    requires Inv(s) && Enabled(s, PipeRead(who, id, chunk, tail))
    ensures Inv(DoPipeRead(s, who, id, chunk, tail))
  {
    hide StreamInv, Only;
    PipeReadLocal(ViewOf(s, id), who, chunk, tail);
    var t := DoPipeRead(s, who, id, chunk, tail);
    Moves(s, who, [], id, Mine(t, who).At(id), Mine(s, who).reader);
  }

  lemma PipeSendLocal(v: View, who: Who, f: Frame)
    requires StreamInv(v) && EndOf(v, who).proc.Sending? && f.Data? && f.payload == EndOf(v, who).proc.chunk
    ensures var e := EndOf(v, who);
            UpOf(v, who) ==> StreamInv(Put(Sent(v, who, f), who, e.(proc := AfterBytes(e.proc.tail))))
    ensures !UpOf(v, who) ==> StreamInv(Put(v, who, EndOf(v, who).(proc := Dropping, sock := Shut)))
  {
    hide StreamInv;
    if who.Server? { ServerSendLocal(v, f); } else { ClientSendLocal(v, f); }
  }

  lemma ServerSendLocal(v: View, f: Frame)
    requires StreamInv(v) && v.sv.proc.Sending? && f.Data? && f.payload == v.sv.proc.chunk
    ensures v.svUp ==> StreamInv(v.(down := Grown(v.down, f), sv := v.sv.(proc := AfterBytes(v.sv.proc.tail))))
    ensures !v.svUp ==> StreamInv(v.(sv := v.sv.(proc := Dropping, sock := Shut)))
  {
    hide Carried, Announced, Talk, Datas, LooksLikeCallback, Receives;
    ShutBoth(v);
    Extend(v.down, f);
  }

  lemma ClientSendLocal(v: View, f: Frame)
    requires StreamInv(v) && v.cl.proc.Sending? && f.Data? && f.payload == v.cl.proc.chunk
    ensures v.clUp ==> StreamInv(v.(up := Grown(v.up, f), cl := v.cl.(proc := AfterBytes(v.cl.proc.tail))))
    ensures !v.clUp ==> StreamInv(v.(cl := v.cl.(proc := Dropping, sock := Shut)))
  {
    hide Carried, Announced, Talk, Datas, LooksLikeCallback, Receives;
    ShutBoth(v);
    Extend(v.up, f);
  }

  lemma PipeSendKeeps(s: State, who: Who, id: Id)
    requires Inv(s) && Enabled(s, PipeSend(who, id))
    ensures Inv(DoPipeSend(s, who, id))
  {
    hide StreamInv, Only;
    var e := Mine(s, who).At(id);
    var f := Data(id, e.proc.chunk);
    PipeSendLocal(ViewOf(s, id), who, f);
    if Mine(s, who).up {
      Moves(s, who, [f], id, e.(proc := AfterBytes(e.proc.tail)), Mine(s, who).reader);
    } else {
      var cut := SetEnd(s, who, id, e.(proc := Dropping, sock := Shut));
      Moves(s, who, [], id, e.(proc := Dropping, sock := Shut), Mine(s, who).reader);
      EndSessionKeeps(cut);
    }
  }

  lemma PipeEndLocal(v: View, who: Who, f: Frame, finishes: bool)
    requires StreamInv(v) && EndOf(v, who).proc.Ending? && f.Terminal()
    requires finishes ==> who.Client?
    ensures StreamInv(Put(Sent(v, who, f), who, EndOf(v, who).(proc := if finishes then Finishing else Dropping)))
  {
    hide StreamInv;
    if who.Server? {
      ServerEndLocal(v, f);
    } else if v.clUp {
      ClientEndLocal(v, f, finishes);
    } else {
      ClientEndUnsent(v, finishes);
    }
  }

  lemma ServerEndLocal(v: View, f: Frame)
    requires StreamInv(v) && v.sv.proc.Ending? && f.Terminal()
    ensures v.svUp ==> StreamInv(v.(down := Grown(v.down, f), sv := v.sv.(proc := Dropping)))
    ensures !v.svUp ==> StreamInv(v.(sv := v.sv.(proc := Dropping)))
  {
    hide Carried, Announced, Talk, Datas, LooksLikeCallback, Receives;
    Extend(v.down, f);
  }

  lemma ClientEndLocal(v: View, f: Frame, finishes: bool)
    requires StreamInv(v) && v.cl.proc.Ending? && f.Terminal()
    ensures StreamInv(v.(up := Grown(v.up, f), cl := v.cl.(proc := if finishes then Finishing else Dropping)))
  {
    hide Carried, Announced, Talk, Datas, LooksLikeCallback, Receives, ServerSends;
    var w := v.(up := Grown(v.up, f), cl := v.cl.(proc := if finishes then Finishing else Dropping));
    Extend(v.up, f);
    SameSending(v, w);
  }

  /** What the server has sent does not depend on the client's side. */
  lemma SameSending(v: View, w: View)
    requires ServerSends(v) && w.down == v.down && w.sv == v.sv && w.svUp == v.svUp
    ensures ServerSends(w)
  {
  }

  lemma ClientEndUnsent(v: View, finishes: bool)
    requires StreamInv(v) && v.cl.proc.Ending? && !v.clUp
    ensures StreamInv(v.(cl := v.cl.(proc := if finishes then Finishing else Dropping)))
  {
    hide Carried, Announced, Talk, Datas, LooksLikeCallback, Receives;
  }

  lemma PipeEndKeeps(s: State, who: Who, id: Id)
    requires Inv(s) && Enabled(s, PipeEnd(who, id))
    ensures Inv(DoPipeEnd(s, who, id))
  {
    hide StreamInv, Only;
    var e := Mine(s, who).At(id);
    var f := if e.proc.clean then Eof(id) else Close(id);
    var finishes := who.Client? && e.proc.clean;
    PipeEndLocal(ViewOf(s, id), who, f, finishes);
    Moves(s, who, [f], id, e.(proc := if finishes then Finishing else Dropping), Mine(s, who).reader);
  }

  lemma PipeFinishLocal(v: View)
    requires StreamInv(v) && v.cl.proc.Finishing?
    ensures StreamInv(v.(cl := v.cl.(proc := Dropping)))
    ensures v.cl.oauthDone && v.cl.got != [] ==>
              StreamInv(v.(cl := v.cl.(proc := Dropping), clUp := false, finisher := true))
  {
    hide Carried, Announced, Talk, Datas, LooksLikeCallback, Receives;
  }

  lemma PipeFinishKeeps(s: State, id: Id)
    requires Inv(s) && Enabled(s, PipeFinish(id))
    ensures Inv(DoPipeFinish(s, id))
  {
    hide StreamInv, Only;
    var t := DoPipeFinish(s, id);
    PipeFinishLocal(ViewOf(s, id));
    forall j: Id ensures StreamInv(ViewOf(t, j)) {
      var v := ViewOf(s, j);
      LinkFailLocal(v);
      if s.finisher.Some? || !s.cl.At(id).oauthDone || s.cl.At(id).got == [] {
        assert ViewOf(t, j) == if j == id then v.(cl := v.cl.(proc := Dropping)) else v;
      } else {
        assert ViewOf(t, j) == if j == id then v.(cl := v.cl.(proc := Dropping), clUp := false, finisher := true)
                               else v.(clUp := false);
      }
    }
  }

  lemma PipeDropLocal(v: View, who: Who)
    requires StreamInv(v) && EndOf(v, who).proc.Dropping?
    ensures var e := EndOf(v, who);
            StreamInv(Put(v, who, if e.inMap then e.(inMap := false, proc := Leaving) else e.(proc := Halted)))
  {
    hide Carried, Announced, Talk, Datas, LooksLikeCallback, Receives;
    ShutBoth(v);
  }

  lemma PipeDropKeeps(s: State, who: Who, id: Id)
    requires Inv(s) && Enabled(s, PipeDrop(who, id))
    ensures Inv(DoPipeDrop(s, who, id))
  {
    hide StreamInv, Only;
    PipeDropLocal(ViewOf(s, id), who);
    Moves(s, who, [], id, Mine(DoPipeDrop(s, who, id), who).At(id), Mine(s, who).reader);
  }

  lemma PipeCloseLocal(v: View, who: Who)
    requires StreamInv(v) && EndOf(v, who).proc.Leaving?
    ensures StreamInv(Put(v, who, EndOf(v, who).(sock := Shut, proc := Halted)))
  {
    hide Carried, Announced, Talk, Datas, LooksLikeCallback, Receives;
    ShutBoth(v);
  }

  lemma PipeCloseKeeps(s: State, who: Who, id: Id)
    requires Inv(s) && Enabled(s, PipeClose(who, id))
    ensures Inv(DoPipeClose(s, who, id))
  {
    hide StreamInv, Only;
    PipeCloseLocal(ViewOf(s, id), who);
    Moves(s, who, [], id, Mine(s, who).At(id).(sock := Shut, proc := Halted), Mine(s, who).reader);
  }

  function Advanced(l: Link): Link
    requires l.flight != []
  {
    Link(l.past + [l.flight[0]], l.flight[1..])
  }

  lemma TakeReceives(put: bytes, sock: Sock, inMap: bool, past: seq<Frame>, f: Frame)
    requires Receives(put, sock, inMap, past, Idle)
    requires past != [] ==> !past[|past| - 1].Terminal()
    ensures Receives(put, sock, inMap, past + [f], Handling(f))
  {
    hide Carried;
    CarriedAppend(past, f);
    assert (past + [f])[..|past|] == past;
  }

  lemma TakeClientLocal(v: View)
    requires StreamInv(v) && v.down.flight != [] && v.clReader.Idle?
    ensures StreamInv(v.(down := Advanced(v.down), clReader := Handling(v.down.flight[0])))
  {
    hide Announced, Talk, Datas, Carried, LooksLikeCallback, Receives;
    assert Advanced(v.down).All() == v.down.All();
    var n := |v.down.past|;
    assert v.down.All()[n] == v.down.flight[0];
    DownFrame(v, n);
    if n > 0 {
      assert v.down.All()[n - 1] == v.down.past[n - 1];
      DownFrame(v, n - 1);
    }
    TakeReceives(v.cl.put, v.cl.sock, v.cl.inMap, v.down.past, v.down.flight[0]);
  }

  lemma TakeServerLocal(v: View)
    requires StreamInv(v) && v.up.flight != [] && v.svReader.Idle?
    ensures StreamInv(v.(up := Advanced(v.up), svReader := Handling(v.up.flight[0])))
  {
    hide Announced, Talk, Datas, Carried, LooksLikeCallback, Receives;
    assert Advanced(v.up).All() == v.up.All();
    var n := |v.up.past|;
    assert v.up.All()[n] == v.up.flight[0];
    UpFrame(v, n);
    if n > 0 {
      assert v.up.All()[n - 1] == v.up.past[n - 1];
      UpFrame(v, n - 1);
    }
    TakeReceives(v.sv.put, v.sv.sock, v.sv.inMap, v.up.past, v.up.flight[0]);
  }

  lemma TakeKeeps(s: State, who: Who)
    requires Inv(s) && Enabled(s, Take(who))
    ensures Inv(DoTake(s, who))
  {
    hide StreamInv, Only;
    var t := DoTake(s, who);
    var l := Incoming(s, who);
    var f := l.flight[0];
    forall j: Id ensures StreamInv(ViewOf(t, j)) {
      var v := ViewOf(s, j);
      assert StreamInv(v);
      OnlyAppend(l.past, f, j);
      OnlyHead(l.flight, j);
      if f.About(j) {
        if who.Server? {
          TakeServerLocal(v);
          assert ViewOf(t, j) == v.(up := Advanced(v.up), svReader := Handling(v.up.flight[0]));
        } else {
          TakeClientLocal(v);
          assert ViewOf(t, j) == v.(down := Advanced(v.down), clReader := Handling(v.down.flight[0]));
        }
      } else {
        assert ViewOf(t, j) == v;
      }
    }
  }

  // ----- steps of a reader

  lemma LookupReceives(e: End, past: seq<Frame>, r: Reader, who: Who, dialed: bool)
    requires Receives(e.put, e.sock, e.inMap, past, r) && r.Handling? && (r.frame.Data? || r.frame.Terminal())
    ensures Receives(e.put, e.sock, e.inMap, past, Dispatch(r.frame, who, e.inMap, dialed))
  {
    hide Carried;
    var init, last := past[..|past| - 1], past[|past| - 1..];
    assert past == init + last;
    CarriedPrefix(init, last);
  }

  lemma LookupLocal(v: View, who: Who, dialed: bool)
    requires StreamInv(v) && ReaderOf(v, who).Handling?
    requires ReaderOf(v, who).frame.Data? || ReaderOf(v, who).frame.Terminal()
    ensures StreamInv(Hold(v, who, Dispatch(ReaderOf(v, who).frame, who, EndOf(v, who).inMap, dialed)))
  {
    hide Carried, Announced, Talk, Datas, LooksLikeCallback, Receives;
    if who.Server? {
      LookupReceives(v.sv, v.up.past, v.svReader, who, dialed);
    } else {
      LookupReceives(v.cl, v.down.past, v.clReader, who, dialed);
    }
  }

  lemma OpenLocal(v: View, dialed: bool)
    requires StreamInv(v) && v.clReader.Handling? && v.clReader.frame.Open?
    ensures StreamInv(Hold(v, Client, Dispatch(v.clReader.frame, Client, v.cl.inMap, dialed)))
  {
    hide Carried, Talk, Datas, LooksLikeCallback;
    assert v.down.All()[0] == v.down.past[0];
  }

  lemma HandleKeeps(s: State, who: Who, dialed: bool)
    requires Inv(s) && Enabled(s, Handle(who, dialed))
    ensures Inv(DoHandle(s, who, dialed))
  {
    hide StreamInv, Only, Dispatch;
    var f := Mine(s, who).reader.frame;
    if f.Ping? || f.Pong? {
      QuietHandle(s, who, dialed);
    } else {
      var v := ViewOf(s, f.id);
      NoOpenAtServer(v);
      if f.Open? {
        OpenLocal(v, dialed);
      } else {
        LookupLocal(v, who, dialed);
      }
      var r := Dispatch(f, who, Mine(s, who).At(f.id).inMap, dialed);
      DispatchAbout(f, who, Mine(s, who).At(f.id).inMap, dialed);
      ReaderMoves(s, who, f.id, r);
    }
  }

  lemma DispatchAbout(f: Frame, who: Who, inMap: bool, dialed: bool)
    requires !f.Ping? && !f.Pong?
    ensures var r := Dispatch(f, who, inMap, dialed);
            && OnlyAbout(r, f.id) && (r.About(f.id) || r.Idle? || r.Stopped?)
            && (r.Stopped? <==> who.Server? && f.Open?)
  {
  }

  lemma QuietHandle(s: State, who: Who, dialed: bool)
    requires Inv(s) && Mine(s, who).reader.Handling?
    requires Mine(s, who).reader.frame.Ping? || Mine(s, who).reader.frame.Pong?
    ensures Inv(DoHandle(s, who, dialed))
  {
    hide StreamInv, Only;
    Mute(s, DoHandle(s, who, dialed));
  }

  lemma NoOpenAtServer(v: View)
    requires StreamInv(v)
    ensures !(v.svReader.Handling? && v.svReader.frame.Open?)
  {
  }

  lemma ReaderMoves(s: State, who: Who, id: Id, r: Reader)
    requires Inv(s) && !r.Stopped? && OnlyAbout(Mine(s, who).reader, id) && OnlyAbout(r, id)
    requires StreamInv(Hold(ViewOf(s, id), who, Narrow(r, id)))
    ensures Inv(SetReader(s, who, r))
  {
    hide StreamInv, Only;
    Lift(s, SetReader(s, who, r), id);
  }

  /** A step that no stream sees. */
  lemma Mute(s: State, t: State)
    requires Inv(s)
    requires s.accepts == t.accepts && s.closed == t.closed && s.finisher == t.finisher
    requires s.sv.up == t.sv.up && s.cl.up == t.cl.up
    requires s.sv.ends == t.sv.ends
    requires t.sv.reader.Stopped? ==> s.sv.reader.Stopped?
    requires t.cl.reader.Stopped? ==> s.cl.reader.Stopped?
    requires forall j: Id :: ViewOf(t, j) == ViewOf(s, j)
    ensures Inv(t)
  {
    hide StreamInv, Only;
    forall j: Id ensures StreamInv(ViewOf(t, j)) {
      assert StreamInv(ViewOf(s, j));
    }
  }

  lemma ConnectLocal(v: View)
    requires StreamInv(v) && v.clReader.Connecting?
    ensures var e := BLANK.(proc := Reading, addr := v.clReader.addr, inMap := true, sock := Live);
            StreamInv(v.(cl := e, clReader := Idle))
  {
  }

  lemma ConnectKeeps(s: State)
    requires Inv(s) && Enabled(s, Connect)
    ensures Inv(DoConnect(s))
  {
    hide StreamInv, Only;
    ConnectLocal(ViewOf(s, s.cl.reader.id));
    Lift(s, DoConnect(s), s.cl.reader.id);
  }

  lemma WrittenReceives(e: End, past: seq<Frame>, r: Reader, who: Who, whole: bool, part: nat)
    requires Receives(e.put, e.sock, e.inMap, past, r) && r.Writing? && part <= |r.payload|
    requires e.sock.Live? || (!whole && part == 0)
    ensures var w := Wrote(e, who, r.payload, whole, part);
            Receives(w.put, w.sock, w.inMap, past, if whole then Idle else Removing(r.id))
  {
    hide Carried;
    var init, last := past[..|past| - 1], past[|past| - 1];
    assert past == init + [last];
    CarriedAppend(init, last);
    assert e.put + [] == e.put;
    assert r.payload == r.payload[..part] + r.payload[part..];
  }

  lemma WriteServerLocal(v: View, whole: bool, part: nat)
    requires StreamInv(v) && v.svReader.Writing? && part <= |v.svReader.payload|
    requires v.sv.sock.Live? || (!whole && part == 0)
    ensures var r := v.svReader;
            StreamInv(v.(sv := Wrote(v.sv, Server, r.payload, whole, part),
                         svReader := if whole then Idle else Removing(r.id)))
  {
    hide Carried, Announced, Talk, Datas, LooksLikeCallback, Receives;
    WrittenReceives(v.sv, v.up.past, v.svReader, Server, whole, part);
  }

  lemma WriteClientLocal(v: View, whole: bool, part: nat)
    requires StreamInv(v) && v.clReader.Writing? && part <= |v.clReader.payload|
    requires v.cl.sock.Live? || (!whole && part == 0)
    ensures var r := v.clReader;
            StreamInv(v.(cl := Wrote(v.cl, Client, r.payload, whole, part),
                         clReader := if whole then Idle else Removing(r.id)))
  {
    hide Carried, Announced, Talk, Datas, LooksLikeCallback, Receives;
    WrittenReceives(v.cl, v.down.past, v.clReader, Client, whole, part);
    DetectionKept(v.cl.reqBuf, v.clReader.payload);
  }

  lemma DetectionKept(reqBuf: bytes, payload: bytes)
    ensures LooksLikeCallback(reqBuf) ==> LooksLikeCallback(Buffer(reqBuf, payload))
  {
    hide LooksLikeCallback;
    if LooksLikeCallback(reqBuf) {
      DetectionGrows(reqBuf, payload);
    }
  }

  lemma WriteSockKeeps(s: State, who: Who, whole: bool, part: nat)
    requires Inv(s) && Enabled(s, WriteSock(who, whole, part))
    ensures Inv(DoWriteSock(s, who, whole, part))
  {
    hide StreamInv, Only, Wrote;
    var r := Mine(s, who).reader;
    if who.Server? {
      WriteServerLocal(ViewOf(s, r.id), whole, part);
    } else {
      WriteClientLocal(ViewOf(s, r.id), whole, part);
    }
    var e := Wrote(Mine(s, who).At(r.id), who, r.payload, whole, part);
    assert e.proc == Mine(s, who).At(r.id).proc by { WroteProc(Mine(s, who).At(r.id), who, r.payload, whole, part); }
    Moves(s, who, [], r.id, e, if whole then Idle else Removing(r.id));
  }

  lemma WroteProc(e: End, who: Who, payload: bytes, whole: bool, part: nat)
    requires part <= |payload|
    ensures Wrote(e, who, payload, whole, part).proc == e.proc
  {
  }

  lemma ShutSockLocal(v: View, who: Who)
    requires StreamInv(v) && ReaderOf(v, who).Shutting?
    ensures var e := EndOf(v, who);
            StreamInv(Hold(Put(v, who, if e.sock.Live? then e.(sock := WriteShut) else e), who, Idle))
  {
    hide Carried, Announced, Talk, Datas, LooksLikeCallback, Receives;
    if who.Server? {
      ShutReceives(v.sv.put, v.sv.sock, v.sv.inMap, v.up.past, v.svReader);
    } else {
      ShutReceives(v.cl.put, v.cl.sock, v.cl.inMap, v.down.past, v.clReader);
    }
  }

  lemma ShutSockKeeps(s: State, who: Who)
    requires Inv(s) && Enabled(s, ShutSock(who))
    ensures Inv(DoShutSock(s, who))
  {
    hide StreamInv, Only;
    var id := Mine(s, who).reader.id;
    ShutSockLocal(ViewOf(s, id), who);
    var t := DoShutSock(s, who);
    Moves(s, who, [], id, Mine(t, who).At(id), Mine(t, who).reader);
  }

  lemma CloseSockLocal(v: View, who: Who)
    requires StreamInv(v) && ReaderOf(v, who).Closing?
    ensures StreamInv(Hold(Put(v, who, EndOf(v, who).(sock := Shut)), who, Removing(ReaderOf(v, who).id)))
  {
    hide StreamInv;
    if who.Server? { ServerCloseLocal(v); } else { ClientCloseLocal(v); }
  }

  lemma ServerCloseLocal(v: View)
    requires StreamInv(v) && v.svReader.Closing?
    ensures StreamInv(v.(sv := v.sv.(sock := Shut), svReader := Removing(v.svReader.id)))
  {
    hide Carried, Announced, Talk, Datas, LooksLikeCallback, Receives;
    ShutReceives(v.sv.put, v.sv.sock, v.sv.inMap, v.up.past, v.svReader);
  }

  lemma ClientCloseLocal(v: View)
    requires StreamInv(v) && v.clReader.Closing?
    ensures StreamInv(v.(cl := v.cl.(sock := Shut), clReader := Removing(v.clReader.id)))
  {
    hide Carried, Announced, Talk, Datas, LooksLikeCallback, Receives;
    ShutReceives(v.cl.put, v.cl.sock, v.cl.inMap, v.down.past, v.clReader);
  }

  lemma CloseSockKeeps(s: State, who: Who)
    requires Inv(s) && Enabled(s, CloseSock(who))
    ensures Inv(DoCloseSock(s, who))
  {
    hide StreamInv, Only;
    var id := Mine(s, who).reader.id;
    CloseSockLocal(ViewOf(s, id), who);
    var t := DoCloseSock(s, who);
    Moves(s, who, [], id, Mine(t, who).At(id), Mine(t, who).reader);
  }

  lemma RemoveLocal(v: View, who: Who)
    requires StreamInv(v) && ReaderOf(v, who).Removing?
    ensures StreamInv(Hold(Put(v, who, Drop(EndOf(v, who))), who, Idle))
  {
    hide Carried, Announced, Talk, Datas, LooksLikeCallback, Receives;
    if who.Server? {
      ShutReceives(v.sv.put, v.sv.sock, v.sv.inMap, v.up.past, v.svReader);
    } else {
      ShutReceives(v.cl.put, v.cl.sock, v.cl.inMap, v.down.past, v.clReader);
    }
  }

  lemma RemoveKeeps(s: State, who: Who)
    requires Inv(s) && Enabled(s, Remove(who))
    ensures Inv(DoRemove(s, who))
  {
    hide StreamInv, Only;
    var id := Mine(s, who).reader.id;
    RemoveLocal(ViewOf(s, id), who);
    var t := DoRemove(s, who);
    Moves(s, who, [], id, Mine(t, who).At(id), Mine(t, who).reader);
  }

  lemma ReplyLocal(v: View, who: Who)
    requires StreamInv(v) && ReaderOf(v, who).Replying?
    ensures StreamInv(Hold(Sent(v, who, ReaderOf(v, who).frame), who, Idle))
  {
    Extend(v.up, ReaderOf(v, who).frame);
  }

  lemma ReplyKeeps(s: State, who: Who)
    requires Inv(s) && Enabled(s, Reply(who))
    ensures Inv(DoReply(s, who))
  {
    hide StreamInv, Only, ViewOf, Sent, Hold;
    var f := Mine(s, who).reader.frame;
    var id := if f.Ping? || f.Pong? then 0 else f.id;
    forall j: Id
      ensures ViewOf(DoReply(s, who), j) ==
              if f.About(j) then Hold(Sent(ViewOf(s, j), who, f), who, Idle) else ViewOf(s, j)
    {
      RepliedView(s, who, j);
    }
    if f.About(id) {
      assert ReaderOf(ViewOf(s, id), who) == Replying(f) by { ReaderSeen(s, who, id); }
      ReplyLocal(ViewOf(s, id), who);
    }
    Lift(s, DoReply(s, who), id);
  }

  lemma ReaderSeen(s: State, who: Who, id: Id)
    ensures ReaderOf(ViewOf(s, id), who) == Narrow(Mine(s, who).reader, id)
  {
  }

  lemma RepliedView(s: State, who: Who, j: Id)
    requires Mine(s, who).reader.Replying?
    ensures var f := Mine(s, who).reader.frame;
            ViewOf(DoReply(s, who), j) ==
            if f.About(j) then Hold(Sent(ViewOf(s, j), who, f), who, Idle) else ViewOf(s, j)
  {
    hide Only;
    EmitView(s, who, Mine(s, who).reader.frame, j);
  }

  lemma ReadErrorKeeps(s: State, who: Who)
    requires Inv(s) && Enabled(s, ReadError(who))
    ensures Inv(DoReadError(s, who))
  {
    hide StreamInv, Only;
    EndSessionKeeps(s);
    var t := if who.Server? then EndSession(s) else s;
    forall j: Id ensures StreamInv(ViewOf(DoReadError(s, who), j)) {
      assert ViewOf(DoReadError(s, who), j) == ViewOf(t, j);
    }
  }

  // ----- every step, every run

  lemma StepKeeps(s: State, a: Action)
    requires Inv(s) && Enabled(s, a)
    ensures Inv(Apply(s, a))
  {
    hide Inv;
    match a
    case Accept(id, addr) => AcceptKeeps(s, id, addr);
    case Register(id) => RegisterKeeps(s, id);
    case Announce(id) => AnnounceKeeps(s, id);
    case PipeRead(who, id, chunk, tail) => PipeReadKeeps(s, who, id, chunk, tail);
    case PipeSend(who, id) => PipeSendKeeps(s, who, id);
    case PipeEnd(who, id) => PipeEndKeeps(s, who, id);
    case PipeFinish(id) => PipeFinishKeeps(s, id);
    case PipeDrop(who, id) => PipeDropKeeps(s, who, id);
    case PipeClose(who, id) => PipeCloseKeeps(s, who, id);
    case Take(who) => TakeKeeps(s, who);
    case Handle(who, dialed) => HandleKeeps(s, who, dialed);
    case Connect => ConnectKeeps(s);
    case WriteSock(who, whole, part) => WriteSockKeeps(s, who, whole, part);
    case ShutSock(who) => ShutSockKeeps(s, who);
    case CloseSock(who) => CloseSockKeeps(s, who);
    case Remove(who) => RemoveKeeps(s, who);
    case Reply(who) => ReplyKeeps(s, who);
    case ReadError(who) => ReadErrorKeeps(s, who);
    case LinkFail(who) => LinkFailKeeps(s, who);
    case SessionClose => EndSessionKeeps(s);
    case CloseAll => EndClientKeeps(s);
    case Tick => TickKeeps(s);
  }

  lemma TickKeeps(s: State)
    requires Inv(s)
    ensures Inv(Emit(s, Client, Ping))
  {
    hide StreamInv, Only, ViewOf;
    forall j: Id ensures ViewOf(Emit(s, Client, Ping), j) == ViewOf(s, j) {
      EmitView(s, Client, Ping, j);
    }
    Mute(s, Emit(s, Client, Ping));
  }

  lemma {:induction false} RunKeeps(s: State, acts: seq<Action>)
    requires Inv(s) && CanRun(s, acts)
    ensures Inv(Run(s, acts))
    decreases |acts|
  {
    hide Inv, Apply;
    if acts != [] {
      StepKeeps(s, acts[0]);
      RunKeeps(Apply(s, acts[0]), acts[1..]);
    }
  }

  lemma InitHolds()
    ensures Inv(INIT)
  {
  }

  /** Every reachable state satisfies the invariant. */
  lemma Reachable(acts: seq<Action>)
    requires CanRun(INIT, acts)
    ensures Inv(Run(INIT, acts))
  {
    hide Inv;
    InitHolds();
    RunKeeps(INIT, acts);
  }
}
