/**
 * The wire of one endpoint, from the goroutines that write protocol frames to the reading loop at the other end:
 * `Wire` has the interleaving of the writers, `Codec` the sealing of each frame.
 */
module Channel {
  import opened Bytes
  import opened Codec
  import Frames
  import Protocol
  import Wire

  /** The members of `xs` that belong to `w`, in order. */
  function Part<T>(xs: seq<T>, owners: seq<nat>, w: nat): seq<T>
    requires |xs| == |owners|
  {
    if xs == [] then []
    else
      var n := |xs| - 1;
      Part(xs[..n], owners[..n], w) + if owners[n] == w then [xs[n]] else []
  }

  function Owners(log: seq<Wire.Job>): seq<nat> {
    seq(|log|, i requires 0 <= i < |log| => log[i].writer)
  }

  lemma {:induction false} ByIsPart(log: seq<Wire.Job>, w: nat)
    ensures Wire.By(log, w) == Part(Wire.Sent(log), Owners(log), w)
  {
    if log != [] {
      var init := log[..|log| - 1];
      ByIsPart(init, w);
      assert Wire.Sent(log)[..|init|] == Wire.Sent(init) && Owners(log)[..|init|] == Owners(init);
    }
  }

  // ----- decoding

  /** Payloads that a reading loop accepts as protocol frames. */
  predicate Readable(mac: Mac, json: Json, ps: seq<bytes>) {
    forall i | 0 <= i < |ps| :: Unwrapped(mac, json, ps[i]).Means?
  }

  lemma {:induction false} UnwrapAppend(mac: Mac, json: Json, ps: seq<bytes>, p: bytes)
    requires Readable(mac, json, ps) && Unwrapped(mac, json, p).Means?
    ensures UnwrapAll(mac, json, ps + [p]) == UnwrapAll(mac, json, ps) + [Unwrapped(mac, json, p).frame]
  {
    hide Unwrapped;
    if ps == [] {
      assert ps + [p] == [p] && [p][1..] == [];
    } else {
      UnwrapAppend(mac, json, ps[1..], p);
      assert (ps + [p])[1..] == ps[1..] + [p];
    }
  }

  lemma {:induction false} UnwrapLength(mac: Mac, json: Json, ps: seq<bytes>)
    requires Readable(mac, json, ps)
    ensures |UnwrapAll(mac, json, ps)| == |ps|
  {
    hide Unwrapped;
    if ps != [] {
      UnwrapLength(mac, json, ps[1..]);
    }
  }

  /** Decoding everything and picking a writer's frames is decoding what that writer wrote. */
  lemma {:induction false} PartDecodes(mac: Mac, json: Json, ps: seq<bytes>, owners: seq<nat>, w: nat)
    requires |ps| == |owners| && Readable(mac, json, ps)
    ensures |UnwrapAll(mac, json, ps)| == |ps| && Readable(mac, json, Part(ps, owners, w))
    ensures Part(UnwrapAll(mac, json, ps), owners, w) == UnwrapAll(mac, json, Part(ps, owners, w))
  {
    hide Unwrapped;
    UnwrapLength(mac, json, ps);
    if ps != [] {
      var n := |ps| - 1;
      var init, mine := ps[..n], owners[..n];
      PartDecodes(mac, json, init, mine, w);
      assert init + [ps[n]] == ps;
      UnwrapAppend(mac, json, init, ps[n]);
      var fs := UnwrapAll(mac, json, ps);
      assert fs[..n] == UnwrapAll(mac, json, init);
      assert fs[n] == Unwrapped(mac, json, ps[n]).frame;
      if owners[n] == w {
        UnwrapAppend(mac, json, Part(init, mine, w), ps[n]);
        assert Part(ps, owners, w) == Part(init, mine, w) + [ps[n]];
      } else {
        assert Part(ps, owners, w) == Part(init, mine, w);
        assert Part(fs, owners, w) == Part(fs[..n], mine, w);
      }
    }
  }

  // ----- what the writers hand over

  lemma {:induction false} WrapPrefix(mac: Mac, json: Json, fs: seq<Protocol.Frame>, n: nat)
    requires n <= |fs|
    ensures |WrapAll(mac, json, fs)| == |fs| && WrapAll(mac, json, fs)[..n] == WrapAll(mac, json, fs[..n])
  {
    hide Wrapped;
    if fs != [] {
      WrapPrefix(mac, json, fs[1..], if n == 0 then 0 else n - 1);
      if n > 0 {
        assert fs[..n][1..] == fs[1..][..n - 1];
      }
    }
  }

  lemma {:induction false} WrapIsReadable(mac: Mac, json: Json, fs: seq<Protocol.Frame>, p: bytes)
    requires json.Lawful() && p in WrapAll(mac, json, fs)
    ensures Unwrapped(mac, json, p).Means? && p != []
  {
    hide Sealed, Unseal, Encode, Decode;
    if p == Wrapped(mac, json, fs[0]) {
      UnsealSealed(mac, Encode(json, fs[0]));
      DecodeEncoded(json, fs[0]);
      NeverEmpty(mac, Encode(json, fs[0]));
    } else {
      WrapIsReadable(mac, json, fs[1..], p);
    }
  }

  lemma NeverEmpty(mac: Mac, r: Raw)
    ensures Sealed(mac, r) != []
  {
  }

  /** Goroutine `w` writes the frames `fs(w)`. */
  ghost predicate Writes(mac: Mac, json: Json, fs: nat -> seq<Protocol.Frame>, plan: nat -> seq<bytes>) {
    && json.Lawful()
    && forall w: nat :: plan(w) == WrapAll(mac, json, fs(w)) && AllSendable(json, fs(w))
  }

  lemma WritesReasonably(mac: Mac, json: Json, fs: nat -> seq<Protocol.Frame>, plan: nat -> seq<bytes>)
    requires Writes(mac, json, fs, plan)
    ensures Wire.Reasonable(plan)
  {
    hide WrapAll, AllSendable;
    forall w: nat, i: nat | i < |plan(w)| ensures 0 < |plan(w)[i]| <= Frames.MAX_FRAME {
      WrapIsReadable(mac, json, fs(w), plan(w)[i]);
      WrappedFit(mac, json, fs(w));
    }
  }

  /** The frames of one writer that arrive are the first ones it wrote. */
  lemma WriterKeepsOrder(mac: Mac, json: Json, fs: seq<Protocol.Frame>, done: seq<bytes>)
    requires json.Lawful() && done <= WrapAll(mac, json, fs)
    ensures |done| <= |fs| && UnwrapAll(mac, json, done) == fs[..|done|]
  {
    hide WrapAll, UnwrapAll;
    WrapPrefix(mac, json, fs, |fs|);
    WrapPrefix(mac, json, fs, |done|);
    assert done == WrapAll(mac, json, fs)[..|done|];
    UnwrapInvertsWrap(mac, json, fs[..|done|]);
  }

  /**
   * For any number of writers, any interleaving and any failures and closes, the frames that the other side decodes
   * are an interleaving of initial parts of what the writers sent: with `owners` naming the writer of each, every
   * writer's frames are in its own order, and while the connection is healthy none that it finished is missing.
   */
  lemma DecodedInterleaving(mac: Mac, json: Json, fs: nat -> seq<Protocol.Frame>, plan: nat -> seq<bytes>,
                            steps: seq<Wire.Step>)
    returns (owners: seq<nat>)
    requires Writes(mac, json, fs, plan) && Wire.CanRun(plan, Wire.INIT, steps)
    ensures var s := Wire.Run(plan, Wire.INIT, steps);
            var decoded := UnwrapAll(mac, json, Frames.ParseAll(s.wire).frames);
            && |decoded| == |owners|
            && (forall w: nat :: Part(decoded, owners, w) <= fs(w))
            && (!s.closed && s.broken.None? ==>
                  forall w: nat :: 0 <= Wire.Finished(s, w) <= |fs(w)| &&
                                   Part(decoded, owners, w) == fs(w)[..Wire.Finished(s, w)])
  {
    hide Wire.CanRun, Wire.Run, Wire.By, Wire.Shape, Wire.Reasonable, Frames.ParseAll, UnwrapAll, WrapAll, AllSendable;
    var s := Wire.Run(plan, Wire.INIT, steps);
    WritesReasonably(mac, json, fs, plan);
    Wire.WireIsWholeFrames(plan, steps);
    owners := Owners(s.log);
    LogReadable(mac, json, fs, plan, steps);
    UnwrapLength(mac, json, Wire.Sent(s.log));
    var decoded := UnwrapAll(mac, json, Wire.Sent(s.log));
    forall w: nat
      ensures Part(decoded, owners, w) == UnwrapAll(mac, json, Wire.By(s.log, w))
      ensures |Wire.By(s.log, w)| <= |fs(w)| && Part(decoded, owners, w) == fs(w)[..|Wire.By(s.log, w)|]
      ensures |plan(w)| == |fs(w)|
    {
      ByIsPart(s.log, w);
      PartDecodes(mac, json, Wire.Sent(s.log), owners, w);
      assert plan(w) == WrapAll(mac, json, fs(w));
      WriterKeepsOrder(mac, json, fs(w), Wire.By(s.log, w));
      WrapPrefix(mac, json, fs(w), 0);
    }
  }

  lemma LogReadable(mac: Mac, json: Json, fs: nat -> seq<Protocol.Frame>, plan: nat -> seq<bytes>,
                    steps: seq<Wire.Step>)
    requires Writes(mac, json, fs, plan) && Wire.CanRun(plan, Wire.INIT, steps)
    ensures Readable(mac, json, Wire.Sent(Wire.Run(plan, Wire.INIT, steps).log))
  {
    hide Wire.CanRun, Wire.Run, Wire.Shape, Wire.InOrder, WrapAll, AllSendable, Unwrapped;
    Wire.Reached(plan, steps);
    var log := Wire.Run(plan, Wire.INIT, steps).log;
    forall i | 0 <= i < |log| ensures Unwrapped(mac, json, Wire.Sent(log)[i]).Means? {
      assert log[i].data in plan(log[i].writer);
      WrapIsReadable(mac, json, fs(log[i].writer), log[i].data);
    }
  }
}
