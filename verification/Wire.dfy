/**
 * Many goroutines write frames through one endpoint (`writeFrame`, `close`): the accept loops, the pipes,
 * the replies and the keepalive. Each frame is two writes under the endpoint's lock.
 */
module Wire {
  import opened Options
  import opened Bytes
  import opened Frames

  /** One call of `writeFrame` by the goroutine `writer`, with the bytes to be framed. */
  datatype Job = Job(writer: nat, data: bytes)

  /** The endpoint's lock, and how far its holder is with its frame. */
  datatype Lock = Free | Before(job: Job) | Between(job: Job)

  /**
   * `log` holds the calls that returned success, `broken` the frame during which a write failed.
   * `done` counts, for each goroutine, the calls it has started.
   */
  datatype State = State(
    wire: bytes, log: seq<Job>, lock: Lock, closed: bool, broken: Option<Job>, done: map<nat, nat>)

  const INIT := State([], [], Free, false, None, map[])

  datatype Step =
    | Acquire(writer: nat)
    | WriteHeader(ok: bool, part: nat)
    | WriteBody(ok: bool, part: nat)
    | Close

  function Started(s: State, w: nat): nat {
    if w in s.done then s.done[w] else 0
  }

  /** The calls of a goroutine that have returned: all it has started, but for the one that holds the lock. */
  function Finished(s: State, w: nat): int {
    Started(s, w) - if !s.lock.Free? && s.lock.job.writer == w then 1 else 0
  }

  /** `plan(w)` is what goroutine `w` writes, one call after the other. */
  predicate Enabled(plan: nat -> seq<bytes>, s: State, a: Step) {
    var alive := !s.closed && s.broken.None?;
    match a
    case Acquire(w) => s.lock.Free? && Started(s, w) < |plan(w)|
    case WriteHeader(ok, part) =>
      && s.lock.Before?
      && if alive then ok || part < 4 else !ok && part == 0
    case WriteBody(ok, part) =>
      && s.lock.Between?
      && if alive then ok || part < |s.lock.job.data| else !ok && part == 0
    case Close => s.lock.Free?
  }

  function Apply(plan: nat -> seq<bytes>, s: State, a: Step): State
    requires Enabled(plan, s, a)
  {
    match a
    case Acquire(w) =>
      s.(lock := Before(Job(w, plan(w)[Started(s, w)])), done := s.done[w := Started(s, w) + 1])
    case WriteHeader(ok, part) =>
      var header := Be32(|s.lock.job.data| % UINT32);
      if ok then s.(wire := s.wire + header, lock := Between(s.lock.job))
      else s.(wire := s.wire + header[..part], lock := Free, broken := Breaks(s))
    case WriteBody(ok, part) =>
      var job := s.lock.job;
      if ok then s.(wire := s.wire + job.data, lock := Free, log := s.log + [job])
      else s.(wire := s.wire + job.data[..part], lock := Free, broken := Breaks(s))
    case Close => s.(closed := true)
  }

  /** The first write to fail on an open connection breaks it for good. */
  function Breaks(s: State): Option<Job>
    requires !s.lock.Free?
  {
    if s.closed || s.broken.Some? then s.broken else Some(s.lock.job)
  }

  ghost predicate CanRun(plan: nat -> seq<bytes>, s: State, steps: seq<Step>)
    decreases |steps|
  {
    steps == [] || (Enabled(plan, s, steps[0]) && CanRun(plan, Apply(plan, s, steps[0]), steps[1..]))
  }

  ghost function Run(plan: nat -> seq<bytes>, s: State, steps: seq<Step>): State
    requires CanRun(plan, s, steps)
    decreases |steps|
  {
    if steps == [] then s else Run(plan, Apply(plan, s, steps[0]), steps[1..])
  }

  // ----- what is on the wire

  function Sent(log: seq<Job>): seq<bytes> {
    seq(|log|, i requires 0 <= i < |log| => log[i].data)
  }

  /** The calls of one goroutine, in the order in which they got the lock. */
  function By(log: seq<Job>, w: nat): seq<bytes> {
    if log == [] then []
    else
      var last := log[|log| - 1];
      By(log[..|log| - 1], w) + if last.writer == w then [last.data] else []
  }

  /** A part of a frame that cannot be taken for a whole one. */
  ghost predicate Unfinished(part: bytes, job: Job) {
    part < Framed(job.data)
  }

  /** The bytes after the last whole frame belong to the lock holder, or to the frame that broke the connection. */
  ghost predicate Shape(s: State, part: bytes) {
    && s.wire == FrameAll(Sent(s.log)) + part
    && (if s.broken.Some? then Unfinished(part, s.broken.value)
        else if s.lock.Between? then part == Be32(|s.lock.job.data| % UINT32)
        else part == [])
    && (s.lock.Between? ==> !s.closed && s.broken.None?)
  }

  /** Every goroutine's frames that made it are an initial part of its plan, none skipped, while the wire is whole. */
  ghost predicate InOrder(plan: nat -> seq<bytes>, s: State) {
    forall w: nat ::
      && Started(s, w) <= |plan(w)|
      && By(s.log, w) <= plan(w)
      && (!s.lock.Free? && s.lock.job.writer == w ==>
            0 < Started(s, w) && s.lock.job.data == plan(w)[Started(s, w) - 1])
      && (!s.closed && s.broken.None? ==>
            By(s.log, w) == plan(w)[..Finished(s, w)])
  }

  predicate Planned(plan: nat -> seq<bytes>, s: State) {
    && (forall i | 0 <= i < |s.log| :: s.log[i].data in plan(s.log[i].writer))
    && (s.broken.Some? ==> s.broken.value.data in plan(s.broken.value.writer))
  }

  ghost predicate Inv(plan: nat -> seq<bytes>, s: State) {
    && (exists part :: Shape(s, part))
    && InOrder(plan, s)
    && Planned(plan, s)
  }

  // ----- the invariant is kept

  lemma {:induction false} FrameAllAppend(ps: seq<bytes>, p: bytes)
    ensures FrameAll(ps + [p]) == FrameAll(ps) + Framed(p)
  {
    hide Framed;
    if ps == [] {
      assert ps + [p] == [p];
      assert FrameAll([p][1..]) == [];
    } else {
      FrameAllAppend(ps[1..], p);
      assert (ps + [p])[1..] == ps[1..] + [p];
    }
  }

  lemma HeaderKept(plan: nat -> seq<bytes>, s: State, ok: bool, k: nat, part: bytes) returns (next: bytes)
    requires Enabled(plan, s, WriteHeader(ok, k)) && Shape(s, part)
    ensures Shape(Apply(plan, s, WriteHeader(ok, k)), next)
  {
    hide Be32, FrameAll;
    var header := Be32(|s.lock.job.data| % UINT32);
    if ok {
      next := header;
    } else {
      next := part + header[..k];
      assert Framed(s.lock.job.data)[..k] == header[..k];
      assert part == [] ==> next == header[..k];
      assert k == 0 ==> next == part;
      assert Apply(plan, s, WriteHeader(ok, k)).wire == FrameAll(Sent(s.log)) + next;
    }
  }

  lemma PayloadKept(plan: nat -> seq<bytes>, s: State, ok: bool, k: nat, part: bytes) returns (next: bytes)
    requires Enabled(plan, s, WriteBody(ok, k)) && Shape(s, part)
    ensures Shape(Apply(plan, s, WriteBody(ok, k)), next)
  {
    hide Be32, FrameAll;
    var t := Apply(plan, s, WriteBody(ok, k));
    var job := s.lock.job;
    if ok {
      FrameAllAppend(Sent(s.log), job.data);
      assert Sent(t.log) == Sent(s.log) + [job.data];
      next := [];
      assert t.wire == FrameAll(Sent(s.log)) + Framed(job.data);
    } else {
      next := part + job.data[..k];
      assert Framed(job.data)[..4 + k] == next;
      assert t.wire == FrameAll(Sent(s.log)) + next;
    }
  }

  lemma ShapeKept(plan: nat -> seq<bytes>, s: State, a: Step, part: bytes) returns (next: bytes)
    requires Enabled(plan, s, a) && Shape(s, part)
    ensures Shape(Apply(plan, s, a), next)
  {
    hide Be32, FrameAll;
    match a
    case Acquire(_) => next := part;
    case Close => next := part;
    case WriteHeader(ok, k) => next := HeaderKept(plan, s, ok, k, part);
    case WriteBody(ok, k) => next := PayloadKept(plan, s, ok, k, part);
  }

  lemma ByAppend(log: seq<Job>, job: Job, w: nat)
    ensures By(log + [job], w) == By(log, w) + if job.writer == w then [job.data] else []
  {
    assert (log + [job])[..|log|] == log;
  }

  lemma OneMore(jobs: seq<bytes>, n: nat)
    requires 0 < n <= |jobs|
    ensures jobs[..n] == jobs[..n - 1] + [jobs[n - 1]]
  {
  }

  lemma InOrderKept(plan: nat -> seq<bytes>, s: State, a: Step)
    requires Enabled(plan, s, a) && InOrder(plan, s)
    requires s.lock.Between? ==> !s.closed && s.broken.None?
    ensures InOrder(plan, Apply(plan, s, a))
  {
    hide By;
    var t := Apply(plan, s, a);
    forall w: nat
      ensures Started(t, w) <= |plan(w)| && By(t.log, w) <= plan(w)
      ensures !t.lock.Free? && t.lock.job.writer == w ==>
                0 < Started(t, w) && t.lock.job.data == plan(w)[Started(t, w) - 1]
      ensures !t.closed && t.broken.None? ==>
                By(t.log, w) == plan(w)[..Finished(t, w)]
    {
      if a.WriteBody? && a.ok {
        ByAppend(s.log, s.lock.job, w);
        if s.lock.job.writer == w {
          OneMore(plan(w), Started(s, w));
        }
      }
    }
  }

  lemma PlannedKept(plan: nat -> seq<bytes>, s: State, a: Step)
    requires Enabled(plan, s, a) && InOrder(plan, s) && Planned(plan, s)
    ensures Planned(plan, Apply(plan, s, a))
  {
    hide By;
    var t := Apply(plan, s, a);
    if !s.lock.Free? {
      var w := s.lock.job.writer;
      assert s.lock.job.data == plan(w)[Started(s, w) - 1];
    }
  }

  lemma {:induction false} RunKeeps(plan: nat -> seq<bytes>, s: State, steps: seq<Step>)
    requires Inv(plan, s) && CanRun(plan, s, steps)
    ensures Inv(plan, Run(plan, s, steps))
    decreases |steps|
  {
    hide InOrder, Planned, Apply, Enabled;
    if steps != [] {
      var a := steps[0];
      var part :| Shape(s, part);
      var next := ShapeKept(plan, s, a, part);
      InOrderKept(plan, s, a);
      PlannedKept(plan, s, a);
      RunKeeps(plan, Apply(plan, s, a), steps[1..]);
    }
  }

  lemma Reached(plan: nat -> seq<bytes>, steps: seq<Step>)
    requires CanRun(plan, INIT, steps)
    ensures Inv(plan, Run(plan, INIT, steps))
  {
    assert Shape(INIT, []);
    RunKeeps(plan, INIT, steps);
  }

  // ----- theorems

  /** After a close nothing more gets onto the wire, and no call succeeds. */
  lemma {:induction false} ClosedWireIsFinal(plan: nat -> seq<bytes>, s: State, steps: seq<Step>)
    requires Inv(plan, s) && s.closed && CanRun(plan, s, steps)
    ensures var t := Run(plan, s, steps);
            t.closed && t.wire == s.wire && t.log == s.log
    decreases |steps|
  {
    if steps != [] {
      ClosedStep(plan, s, steps[0]);
      var one := [steps[0]];
      assert one[1..] == [] && CanRun(plan, s, one);
      assert Run(plan, Apply(plan, s, steps[0]), one[1..]) == Apply(plan, s, steps[0]);
      RunKeeps(plan, s, one);
      ClosedWireIsFinal(plan, Apply(plan, s, steps[0]), steps[1..]);
    }
  }

  lemma ClosedStep(plan: nat -> seq<bytes>, s: State, a: Step)
    requires Inv(plan, s) && s.closed && Enabled(plan, s, a)
    ensures Apply(plan, s, a).closed && Apply(plan, s, a).wire == s.wire && Apply(plan, s, a).log == s.log
  {
    hide InOrder, Planned;
    var part :| Shape(s, part);
  }

  /** From any state of any run: once `close` has taken the lock, the wire is what it was, for ever. */
  lemma NothingAfterClose(plan: nat -> seq<bytes>, before: seq<Step>, after: seq<Step>)
    requires CanRun(plan, INIT, before) && Enabled(plan, Run(plan, INIT, before), Close)
    requires CanRun(plan, Apply(plan, Run(plan, INIT, before), Close), after)
    ensures var s := Run(plan, INIT, before);
            var t := Run(plan, Apply(plan, s, Close), after);
            t.wire == s.wire && t.log == s.log
  {
    hide Inv, CanRun, Run;
    Reached(plan, before);
    var s := Run(plan, INIT, before);
    CloseKeepsShape(plan, s);
    ClosedWireIsFinal(plan, Apply(plan, s, Close), after);
  }

  lemma CloseKeepsShape(plan: nat -> seq<bytes>, s: State)
    requires Inv(plan, s) && Enabled(plan, s, Close)
    ensures Inv(plan, Apply(plan, s, Close)) && Apply(plan, s, Close).closed
  {
    hide By;
    var part :| Shape(s, part);
    var next := ShapeKept(plan, s, Close, part);
    InOrderKept(plan, s, Close);
    PlannedKept(plan, s, Close);
  }

  /** What the codec hands to `WriteFrame` is never empty: it holds a type, an id and a MAC. */
  ghost predicate Reasonable(plan: nat -> seq<bytes>) {
    forall w: nat, i: nat | i < |plan(w)| :: 0 < |plan(w)[i]| <= MAX_FRAME
  }

  /** An unfinished frame is never mistaken for a frame. */
  lemma UnfinishedIsNoFrame(part: bytes, job: Job)
    requires part <= Framed(job.data) && |part| < |Framed(job.data)| && |job.data| <= MAX_FRAME
    ensures !Parse(part).Payload?
  {
    hide Be32, FromBe32;
    var n := |job.data|;
    Be32Reads(n);
    if |part| >= 4 {
      assert part[..4] == Framed(job.data)[..4] == Be32(n);
    }
  }

  /**
   * Whatever the interleaving, the reader of the wire gets exactly the frames whose writing succeeded, in the
   * order of the lock, each goroutine's in its own order and, while the connection is healthy, none of them
   * missing. Behind them there is at most the part of one frame, that of the lock holder or of the write that
   * failed; and a close on a healthy connection leaves whole frames only.
   */
  lemma WireIsWholeFrames(plan: nat -> seq<bytes>, steps: seq<Step>)
    requires Reasonable(plan) && CanRun(plan, INIT, steps)
    ensures var s := Run(plan, INIT, steps);
            && ParseAll(s.wire).frames == Sent(s.log)
            && (exists part :: Shape(s, part))
            && (forall w: nat :: By(s.log, w) <= plan(w))
            && (!s.closed && s.broken.None? ==>
                  forall w: nat :: 0 <= Finished(s, w) <= |plan(w)| && By(s.log, w) == plan(w)[..Finished(s, w)])
            && (s.broken.None? && !s.lock.Between? ==> s.wire == FrameAll(Sent(s.log)))
            && (s.closed && s.broken.None? ==> s.wire == FrameAll(Sent(s.log)))
  {
    hide CanRun, Run, By, ParseAll, Reasonable, FrameAll;
    var s := Run(plan, INIT, steps);
    Reached(plan, steps);
    var part :| Shape(s, part);
    ShapeReads(plan, s, part);
    assert FrameAll(Sent(s.log)) + [] == FrameAll(Sent(s.log));
  }

  /** The part behind the last whole frame is never taken for a frame. */
  lemma ShapeReads(plan: nat -> seq<bytes>, s: State, part: bytes)
    requires Reasonable(plan) && InOrder(plan, s) && Planned(plan, s) && Shape(s, part)
    ensures ParseAll(s.wire).frames == Sent(s.log)
  {
    hide By, FrameAll, Be32;
    forall i | 0 <= i < |Sent(s.log)| ensures |Sent(s.log)[i]| <= MAX_FRAME {
      assert s.log[i].data in plan(s.log[i].writer);
    }
    AllReadBack(Sent(s.log), part);
    if s.broken.Some? {
      UnfinishedIsNoFrame(part, s.broken.value);
    } else if s.lock.Between? {
      var job := s.lock.job;
      assert job.data == plan(job.writer)[Started(s, job.writer) - 1];
      UnfinishedIsNoFrame(part, job);
    }
  }
}
