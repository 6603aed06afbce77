/**
 The outbound playout buffer of internal/call/call.go (handleCommand and emitFrame) as a machine
 over enqueues, barge-ins and frames, with a log of everything that was offered and played.
 */
module Playout {
  import opened Common
  import opened Rtp

  const CAPACITY := 30 * 8000
  const CUSHION := 3 * SAMPLES_PER_FRAME

  datatype Buffer = Buffer(queue: seq<byte>, overCap: bool, buffering: bool)

  const INITIAL := Buffer([], false, true)

  datatype Event = Enqueue(audio: seq<byte>) | Interrupt | Frame

  /** Bytes of audio that still fit. */
  function Room(s: Buffer, audio: seq<byte>): int {
    if |audio| <= CAPACITY - |s.queue| then |audio| else CAPACITY - |s.queue|
  }

  /** Real bytes at the front of the next frame. */
  function RealBytes(s: Buffer): nat {
    if s.buffering && |s.queue| < CUSHION then 0
    else if |s.queue| < SAMPLES_PER_FRAME then |s.queue|
    else SAMPLES_PER_FRAME
  }

  function Part(s: Buffer): seq<byte> {
    s.queue[..RealBytes(s)]
  }

  /** The frame on the wire: real audio in front, silence behind. */
  function Padded(part: seq<byte>): seq<byte> {
    if |part| < SAMPLES_PER_FRAME then part + seq(SAMPLES_PER_FRAME - |part|, i => SILENCE_BYTE) else part
  }

  function Apply(s: Buffer, e: Event): Buffer
    requires |s.queue| <= CAPACITY
  {
    match e
    case Interrupt => Buffer([], false, true)
    case Enqueue(audio) =>
      if audio == [] then s
      else Buffer(s.queue + audio[..Room(s, audio)], Room(s, audio) < |audio|, s.buffering)
    case Frame =>
      Buffer(s.queue[RealBytes(s)..], s.overCap,
            if s.buffering then |s.queue| < CUSHION else s.queue == [])
  }

  // ---- the log ---------------------------------------------------------------------------

  /**
   parts: the real bytes of every frame so far; mark: frames emitted before the last barge-in;
   accepted: bytes taken in since then.
   */
  datatype Log = Log(state: Buffer, parts: seq<seq<byte>>, mark: nat, accepted: seq<byte>,
                     offered: nat, dropped: nat, discarded: nat)

  const EMPTY := Log(INITIAL, [], 0, [], 0, 0, 0)

  /** Conservation and order, at every point of every run. */
  ghost predicate Inv(l: Log) {
    && |l.state.queue| <= CAPACITY
    && l.mark <= |l.parts|
    && (forall i :: 0 <= i < |l.parts| ==> |l.parts[i]| <= SAMPLES_PER_FRAME)
    && l.offered == |Flatten(l.parts)| + l.dropped + l.discarded + |l.state.queue|
    && l.accepted == Flatten(l.parts[l.mark..]) + l.state.queue
  }

  function Step(l: Log, e: Event): Log
    requires |l.state.queue| <= CAPACITY
  {
    var after := Apply(l.state, e);
    match e
    case Interrupt =>
      l.(state := after, mark := |l.parts|, accepted := [], discarded := l.discarded + |l.state.queue|)
    case Enqueue(audio) =>
      l.(state := after, accepted := l.accepted + audio[..Room(l.state, audio)],
         offered := l.offered + |audio|, dropped := l.dropped + (|audio| - Room(l.state, audio)))
    case Frame =>
      l.(state := after, parts := l.parts + [Part(l.state)])
  }

  lemma QueueBounded(s: Buffer, e: Event)
    requires |s.queue| <= CAPACITY
    ensures |Apply(s, e).queue| <= CAPACITY
  {
  }

  lemma FrameKeepsInv(l: Log)
    requires Inv(l)
    ensures Inv(Step(l, Frame))
  {
    var part, rest := Part(l.state), l.state.queue[RealBytes(l.state)..];
    assert part + rest == l.state.queue && |part| <= SAMPLES_PER_FRAME;
    FramePlayed(l.parts, 0, part, rest);
    FramePlayed(l.parts, l.mark, part, rest);
    assert l.parts[0..] == l.parts && (l.parts + [part])[0..] == l.parts + [part];
    hide Flatten, RealBytes;
  }

  /** A frame moves bytes from the buffer to what has been played, in order. */
  lemma FramePlayed(parts: seq<seq<byte>>, mark: nat, part: seq<byte>, rest: seq<byte>)
    requires mark <= |parts|
    ensures Flatten((parts + [part])[mark..]) == Flatten(parts[mark..]) + part
    ensures Flatten((parts + [part])[mark..]) + rest == Flatten(parts[mark..]) + (part + rest)
  {
    FlattenSnoc(parts[mark..], part);
    assert (parts + [part])[mark..] == parts[mark..] + [part];
    hide Flatten;
    Reassociate(Flatten(parts[mark..]), part, rest);
  }

  lemma StepKeepsInv(l: Log, e: Event)
    requires Inv(l)
    ensures Inv(Step(l, e))
  {
    match e
    case Interrupt =>
      assert l.parts[|l.parts|..] == [];
    case Frame =>
      FrameKeepsInv(l);
    case Enqueue(audio) =>
      hide Flatten;
      var taken, f := audio[..Room(l.state, audio)], Flatten(l.parts[l.mark..]);
      assert f + l.state.queue + taken == f + (l.state.queue + taken);
      if audio == [] {
        assert l.state.queue + taken == l.state.queue;
      }
  }

  /** The log after a run of events. */
  ghost function Run(l: Log, es: seq<Event>): (r: Log)
    requires Inv(l)
    ensures Inv(r)
    decreases |es|
  {
    if es == [] then l
    else
      var before := Run(l, es[..|es| - 1]);
      StepKeepsInv(before, es[|es| - 1]);
      Step(before, es[|es| - 1])
  }

  lemma EmptyInv()
    ensures Inv(EMPTY)
  {
  }

  /**
   Every byte ever offered is played, dropped on overflow, discarded by a barge-in, or buffered;
   and since the last barge-in what was played and what is buffered are what was accepted, in order.
   */
  lemma Conservation(es: seq<Event>)
    ensures Inv(EMPTY)
    ensures var r := Run(EMPTY, es);
      && r.offered == |Flatten(r.parts)| + r.dropped + r.discarded + |r.state.queue|
      && r.mark <= |r.parts| && r.accepted == Flatten(r.parts[r.mark..]) + r.state.queue
      && |r.state.queue| <= CAPACITY
  {
    EmptyInv();
  }

  lemma RunSnoc(l: Log, es: seq<Event>, e: Event)
    requires Inv(l)
    ensures Run(l, es + [e]) == Step(Run(l, es), e)
    ensures Run(l, []) == l
  {
    assert (es + [e])[..|es|] == es;
  }

  lemma {:induction false} RunConcat(l: Log, a: seq<Event>, b: seq<Event>)
    requires Inv(l)
    ensures Run(l, a + b) == Run(Run(l, a), b)
    decreases |b|
  {
    hide Step, Inv;
    if b == [] {
      assert a + b == a;
    } else {
      var n := |b| - 1;
      RunConcat(l, a, b[..n]);
      assert a + b == a + b[..n] + [b[n]];
      RunSnoc(l, a + b[..n], b[n]);
    }
  }

  // ---- barge-in --------------------------------------------------------------------------

  /** Real bytes of the frames after the first n. */
  ghost function Since(l: Log, n: nat): seq<seq<byte>> {
    if n <= |l.parts| then l.parts[n..] else []
  }

  /** What a run does after a barge-in is a function of the events after it alone. */
  lemma NothingSurvivesInterrupt(l: Log, l': Log, es: seq<Event>)
    requires Inv(l) && Inv(l')
    ensures Inv(Step(l, Interrupt)) && Inv(Step(l', Interrupt))
    ensures var a, b := Run(Step(l, Interrupt), es), Run(Step(l', Interrupt), es);
      a.state == b.state && Since(a, |l.parts|) == Since(b, |l'.parts|)
  {
    StepKeepsInv(l, Interrupt);
    StepKeepsInv(l', Interrupt);
    hide Inv;
    SameFuture(Step(l, Interrupt), Step(l', Interrupt), es);
  }

  /** Frames depend on the buffer state only, never on the log. */
  lemma {:induction false} SameFuture(l: Log, l': Log, es: seq<Event>)
    requires Inv(l) && Inv(l') && l.state == l'.state
    ensures SameSince(Run(l, es), |l.parts|, Run(l', es), |l'.parts|)
    decreases |es|
  {
    if es == [] {
    } else {
      var n := |es| - 1;
      SameFuture(l, l', es[..n]);
      var a, b := Run(l, es[..n]), Run(l', es[..n]);
      assert |a.state.queue| <= CAPACITY && |b.state.queue| <= CAPACITY;
      hide Inv, Step;
      SameStep(a, |l.parts|, b, |l'.parts|, es[n]);
    }
  }

  ghost predicate SameSince(a: Log, m: nat, b: Log, n: nat) {
    a.state == b.state && m <= |a.parts| && n <= |b.parts| && Since(a, m) == Since(b, n)
  }

  lemma SameStep(a: Log, m: nat, b: Log, n: nat, e: Event)
    requires |a.state.queue| <= CAPACITY && |b.state.queue| <= CAPACITY && SameSince(a, m, b, n)
    ensures SameSince(Step(a, e), m, Step(b, e), n)
  {
    hide Apply, Part, Room;
    if e.Frame? {
      var part := Part(a.state);
      assert (a.parts + [part])[m..] == a.parts[m..] + [part];
      assert (b.parts + [part])[n..] == b.parts[n..] + [part];
    }
  }

  /**
   No byte enqueued before a barge-in is played after it: the real bytes of the later frames are
   the accepted bytes of the later enqueues, in order, up to what is still buffered.
   */
  lemma {:induction false} PlayedAfterInterrupt(l: Log, es: seq<Event>)
    requires Inv(l) && Interrupt !in es
    ensures Inv(Step(l, Interrupt))
    ensures var r := Run(Step(l, Interrupt), es);
      && r.mark == |l.parts| <= |r.parts|
      && Flatten(r.parts[|l.parts|..]) + r.state.queue == r.accepted
      && r.accepted == Taken(Step(l, Interrupt), es)
    decreases |es|
  {
    StepKeepsInv(l, Interrupt);
    if es == [] {
    } else {
      var n := |es| - 1;
      assert forall e :: e in es[..n] ==> e in es;
      PlayedAfterInterrupt(l, es[..n]);
      assert es[n] in es;
      hide Flatten, Inv;
    }
  }

  /** Bytes accepted over a run, in order. */
  ghost function Taken(l: Log, es: seq<Event>): seq<byte>
    requires Inv(l)
    decreases |es|
  {
    if es == [] then []
    else
      var n := |es| - 1;
      Taken(l, es[..n]) + match es[n] {
        case Enqueue(audio) => audio[..Room(Run(l, es[..n]).state, audio)]
        case _ => []
      }
  }

  // ---- chunk boundaries ------------------------------------------------------------------

  /** Splitting one enqueue in two changes nothing at all, overflow included. */
  lemma SplitEnqueue(l: Log, a: seq<byte>, b: seq<byte>)
    requires Inv(l)
    ensures |Step(l, Enqueue(a)).state.queue| <= CAPACITY
    ensures Step(Step(l, Enqueue(a)), Enqueue(b)) == Step(l, Enqueue(a + b))
  {
    assert |l.state.queue| <= CAPACITY;
    hide Inv;
    SplitState(l.state, a, b);
    hide Apply, Room;
    Reassociate(l.accepted, a[..Room(l.state, a)], b[..Room(Apply(l.state, Enqueue(a)), b)]);
  }

  lemma SplitState(s: Buffer, a: seq<byte>, b: seq<byte>)
    requires |s.queue| <= CAPACITY
    ensures var s' := Apply(s, Enqueue(a));
      && |s'.queue| <= CAPACITY
      && Apply(s', Enqueue(b)) == Apply(s, Enqueue(a + b))
      && 0 <= Room(s, a) <= |a| && 0 <= Room(s', b) <= |b|
      && Room(s, a + b) == Room(s, a) + Room(s', b)
      && (a + b)[..Room(s, a + b)] == a[..Room(s, a)] + b[..Room(s', b)]
  {
    QueueBounded(s, Enqueue(a));
    EnqueueIs(s, a);
    EnqueueIs(s, a + b);
    EnqueueIs(Apply(s, Enqueue(a)), b);
    hide Apply;
    var m := Room(s, a);
    var n := Room(Apply(s, Enqueue(a)), b);
    SplitTaken(CAPACITY - |s.queue|, a, b, m, n);
    Reassociate(s.queue, a[..m], b[..n]);
    assert a == [] ==> a + b == b;
    assert b == [] ==> a + b == a;
  }

  /** Accepting nothing and being handed nothing look the same to the buffer. */
  lemma EnqueueIs(s: Buffer, a: seq<byte>)
    requires |s.queue| <= CAPACITY
    ensures 0 <= Room(s, a) <= |a|
    ensures Apply(s, Enqueue(a)) ==
      Buffer(s.queue + a[..Room(s, a)], if a == [] then s.overCap else Room(s, a) < |a|, s.buffering)
  {
    assert a == [] ==> s.queue + a[..Room(s, a)] == s.queue;
  }

  lemma Reassociate<T>(x: seq<T>, y: seq<T>, z: seq<T>)
    ensures x + y + z == x + (y + z)
  {
  }

  /** What fits of a ++ b is what fits of a, then what fits of b in the rest. */
  lemma SplitTaken(room: nat, a: seq<byte>, b: seq<byte>, m: nat, n: nat)
    requires m == if |a| <= room then |a| else room
    requires n == if |b| <= room - m then |b| else room - m
    ensures m + n == if |a + b| <= room then |a + b| else room
    ensures (a + b)[..m + n] == a[..m] + b[..n]
  {
    if m < |a| {
      assert n == 0;
    }
  }

  // ---- jitter ----------------------------------------------------------------------------

  ghost function FramesIn(es: seq<Event>): nat {
    if es == [] then 0 else FramesIn(es[..|es| - 1]) + if es[|es| - 1].Frame? then 1 else 0
  }

  /** Before event i, if a frame: what was in hand plus what came in covers it and all before. */
  ghost predicate SuppliedAt(l: Log, es: seq<Event>, i: nat)
    requires Inv(l) && i < |es|
  {
    es[i].Frame? ==> |l.state.queue| + |Taken(l, es[..i])| >= SAMPLES_PER_FRAME * (FramesIn(es[..i]) + 1)
  }

  ghost predicate RealAt(l: Log, es: seq<Event>, i: nat)
    requires Inv(l) && i < |es|
  {
    es[i].Frame? ==> RealBytes(Run(l, es[..i]).state) == SAMPLES_PER_FRAME
  }

  ghost predicate Supplied(l: Log, es: seq<Event>)
    requires Inv(l)
  {
    forall i :: 0 <= i < |es| ==> SuppliedAt(l, es, i)
  }

  /** Every frame of the run is entirely real audio. */
  ghost predicate AllReal(l: Log, es: seq<Event>)
    requires Inv(l)
  {
    forall i :: 0 <= i < |es| ==> RealAt(l, es, i)
  }

  lemma PrefixAt(l: Log, es: seq<Event>, n: nat, i: nat)
    requires Inv(l) && i < n <= |es|
    ensures RealAt(l, es[..n], i) == RealAt(l, es, i)
    ensures SuppliedAt(l, es[..n], i) == SuppliedAt(l, es, i)
  {
    hide Inv, Run, Taken, FramesIn;
    assert es[..n][..i] == es[..i];
  }

  lemma OneMoreReal(l: Log, es: seq<Event>)
    requires Inv(l) && es != []
    ensures AllReal(l, es) <==> AllReal(l, es[..|es| - 1]) && RealAt(l, es, |es| - 1)
  {
    hide RealAt, SuppliedAt, Inv, Run, Taken, FramesIn;
    var n := |es| - 1;
    forall i | 0 <= i < n
      ensures RealAt(l, es[..n], i) == RealAt(l, es, i)
    {
      PrefixAt(l, es, n, i);
    }
  }

  lemma OneMoreSupplied(l: Log, es: seq<Event>)
    requires Inv(l) && es != []
    ensures Supplied(l, es) <==> Supplied(l, es[..|es| - 1]) && SuppliedAt(l, es, |es| - 1)
  {
    hide RealAt, SuppliedAt, Inv, Run, Taken, FramesIn;
    var n := |es| - 1;
    forall i | 0 <= i < n
      ensures SuppliedAt(l, es[..n], i) == SuppliedAt(l, es, i)
    {
      PrefixAt(l, es, n, i);
    }
  }

  /** While every frame is real, the buffer holds exactly what came in beyond what was played. */
  lemma {:induction false} Balance(l: Log, es: seq<Event>)
    requires Inv(l) && !l.state.buffering && Interrupt !in es && AllReal(l, es)
    ensures !Run(l, es).state.buffering
    ensures |Run(l, es).state.queue| == |l.state.queue| + |Taken(l, es)| - SAMPLES_PER_FRAME * FramesIn(es)
    decreases |es|
  {
    if es == [] {
    } else {
      var n := |es| - 1;
      OneMoreReal(l, es);
      assert forall e :: e in es[..n] ==> e in es;
      Balance(l, es[..n]);
      assert es[n] in es;
      var s := Run(l, es[..n]).state;
      assert |s.queue| <= CAPACITY;
      hide Inv, Flatten, AllReal;
      BalanceStep(s, es[n]);
    }
  }

  lemma BalanceStep(s: Buffer, e: Event)
    requires |s.queue| <= CAPACITY && !s.buffering && !e.Interrupt?
    requires e.Frame? ==> RealBytes(s) == SAMPLES_PER_FRAME
    ensures !Apply(s, e).buffering
    ensures e.Frame? ==> |Apply(s, e).queue| == |s.queue| - SAMPLES_PER_FRAME
    ensures e.Enqueue? ==> |Apply(s, e).queue| == |s.queue| + |e.audio[..Room(s, e.audio)]|
  {
  }

  /** Once playing, every frame is entirely real audio exactly when supply keeps ahead of playout. */
  lemma {:induction false} RealIffSupplied(l: Log, es: seq<Event>)
    requires Inv(l) && !l.state.buffering && Interrupt !in es
    ensures AllReal(l, es) <==> Supplied(l, es)
    decreases |es|
  {
    if es == [] {
    } else {
      var n := |es| - 1;
      OneMoreReal(l, es);
      OneMoreSupplied(l, es);
      assert forall e :: e in es[..n] ==> e in es;
      RealIffSupplied(l, es[..n]);
      hide Inv, AllReal, Supplied, Run, Taken, FramesIn;
      if AllReal(l, es[..n]) {
        Balance(l, es[..n]);
      }
    }
  }

  /**
   From the frame at which buffering clears: if before every later frame k at least 160 k - 320
   bytes have been accepted, every frame is real. The first three frames need nothing.
   */
  lemma JitterTolerance(l: Log, es: seq<Event>)
    requires Inv(l) && l.state.buffering && |l.state.queue| >= CUSHION && Interrupt !in es
    ensures Inv(Step(l, Frame)) && RealBytes(l.state) == SAMPLES_PER_FRAME
    ensures OnTime(Step(l, Frame), es) ==> AllReal(Step(l, Frame), es)
    ensures FramesIn(es) <= 2 ==> AllReal(Step(l, Frame), es)
  {
    StepKeepsInv(l, Frame);
    var cleared := Step(l, Frame);
    assert !cleared.state.buffering && |cleared.state.queue| >= 320;
    RealIffSupplied(cleared, es);
    hide Inv, Step, AllReal, Run, Taken, Flatten;
    if FramesIn(es) <= 2 {
      forall i | 0 <= i < |es|
        ensures SuppliedAt(cleared, es, i)
      {
        if es[i].Frame? {
          FramesBefore(es, i);
        }
      }
    }
  }

  /** Frame k after the clearing one finds at least 160 k - 320 bytes accepted since. */
  ghost predicate OnTime(l: Log, es: seq<Event>)
    requires Inv(l)
  {
    forall i :: 0 <= i < |es| && es[i].Frame? ==>
      |Taken(l, es[..i])| >= SAMPLES_PER_FRAME * (FramesIn(es[..i]) + 1) - 320
  }

  lemma {:induction false} FramesBefore(es: seq<Event>, i: nat)
    requires i < |es| && es[i].Frame?
    ensures FramesIn(es[..i]) + 1 <= FramesIn(es)
    decreases |es|
  {
    var n := |es| - 1;
    if i >= n {
    } else {
      FramesBefore(es[..n], i);
      assert es[..n][..i] == es[..i];
    }
  }

  // ---- the cushion, read off the wire ----------------------------------------------------

  /** Nothing real has gone out since the last barge-in, or the latest frame was all silence. */
  ghost predicate Armed(l: Log) {
    |l.parts| == l.mark || (l.parts != [] && l.parts[|l.parts| - 1] == [])
  }

  /** Frame i is where real audio starts, or starts again. */
  ghost predicate Starts(l: Log, i: nat)
    requires i < |l.parts|
  {
    l.mark <= i && l.parts[i] != [] && (i == l.mark || l.parts[i - 1] == [])
  }

  /** The frame at which audio starts and the next two are full. */
  ghost predicate StartsFull(l: Log) {
    forall i, j :: 0 <= i <= j < |l.parts| && j <= i + 2 && Starts(l, i) ==> |l.parts[j]| == SAMPLES_PER_FRAME
  }

  /** What a recent start still has in hand. */
  ghost predicate InHand(l: Log) {
    && (|l.parts| >= 1 && Starts(l, |l.parts| - 1) ==> |l.state.queue| >= 2 * SAMPLES_PER_FRAME)
    && (|l.parts| >= 2 && Starts(l, |l.parts| - 2) ==> |l.state.queue| >= SAMPLES_PER_FRAME)
  }

  ghost predicate CushionInv(l: Log) {
    && l.mark <= |l.parts| && |l.state.queue| <= CAPACITY
    && (l.state.buffering <==> Armed(l)) && StartsFull(l) && InHand(l)
  }

  /** A frame leaves earlier starts where they were. */
  lemma StartsStay(l: Log, i: nat)
    requires |l.state.queue| <= CAPACITY && i < |l.parts|
    ensures Starts(Step(l, Frame), i) == Starts(l, i)
  {
    hide Apply, Part;
  }

  /** The frame that starts audio, and each of the two after it, finds a full frame in hand. */
  lemma StartedFrame(l: Log, i: nat)
    requires CushionInv(l) && i <= |l.parts| <= i + 2 && Starts(Step(l, Frame), i)
    ensures |Part(l.state)| == SAMPLES_PER_FRAME
    ensures |Step(l, Frame).state.queue| >= (i + 2 - |l.parts|) * SAMPLES_PER_FRAME
  {
    if i < |l.parts| {
      StartsStay(l, i);
      LastIsReal(l, i);
      hide StartsFull, Starts;
    } else {
      assert Armed(l);
      hide StartsFull, InHand;
    }
  }

  lemma LastIsReal(l: Log, i: nat)
    requires StartsFull(l) && i < |l.parts| <= i + 2 && Starts(l, i)
    ensures !Armed(l)
  {
    assert |l.parts[|l.parts| - 1]| == SAMPLES_PER_FRAME;
  }

  lemma FrameKeepsStartsFull(l: Log)
    requires CushionInv(l)
    ensures StartsFull(Step(l, Frame))
  {
    var after, n := Step(l, Frame), |l.parts|;
    forall i, j | 0 <= i <= j <= n && j <= i + 2 && Starts(after, i)
      ensures |after.parts[j]| == SAMPLES_PER_FRAME
    {
      if j < n {
        StartsStay(l, i);
        hide Step, Starts, Armed, InHand;
        assert StartsFull(l);
      } else {
        StartedFrame(l, i);
        hide *;
      }
      FramePart(l, j);
    }
  }

  lemma FramePart(l: Log, j: nat)
    requires |l.state.queue| <= CAPACITY && j <= |l.parts|
    ensures Step(l, Frame).parts[j] == if j < |l.parts| then l.parts[j] else Part(l.state)
  {
    hide Apply, Part;
  }

  lemma FrameKeepsInHand(l: Log)
    requires CushionInv(l)
    ensures InHand(Step(l, Frame))
  {
    var after, n := Step(l, Frame), |l.parts|;
    if Starts(after, n) {
      StartedFrame(l, n);
    }
    if n >= 1 && Starts(after, n - 1) {
      StartedFrame(l, n - 1);
    }
    hide CushionInv, Apply, Part, Starts;
  }

  lemma FrameKeepsCushion(l: Log)
    requires CushionInv(l)
    ensures CushionInv(Step(l, Frame))
  {
    FrameKeepsStartsFull(l);
    FrameKeepsInHand(l);
    hide StartsFull, InHand;
  }

  lemma StepKeepsCushion(l: Log, e: Event)
    requires CushionInv(l)
    ensures CushionInv(Step(l, e))
  {
    if e.Frame? {
      FrameKeepsCushion(l);
    } else {
      assert forall i :: 0 <= i < |l.parts| && Starts(Step(l, e), i) ==> Starts(l, i);
    }
  }

  lemma {:induction false} RunKeepsCushion(es: seq<Event>)
    ensures Inv(EMPTY) && CushionInv(Run(EMPTY, es))
    decreases |es|
  {
    EmptyInv();
    if es == [] {
    } else {
      var n := |es| - 1;
      RunKeepsCushion(es[..n]);
      hide CushionInv, Inv;
      StepKeepsCushion(Run(EMPTY, es[..n]), es[n]);
    }
  }

  /**
   Over every run from an empty buffer: wherever audio starts, that frame and the next two are full
   unless a barge-in comes between; and how much the next frame carries follows from what is on the
   wire and the depth of the buffer, the whole cushion being asked for only at a start.
   */
  lemma EveryStartIsCushioned(es: seq<Event>)
    ensures Inv(EMPTY)
    ensures var r := Run(EMPTY, es);
      && StartsFull(r)
      && |Part(r.state)| == (if Armed(r) && |r.state.queue| < 480 then 0
                             else if |r.state.queue| < 160 then |r.state.queue|
                             else 160)
  {
    RunKeepsCushion(es);
    hide StartsFull, InHand, Armed, Run;
  }

  /** Event k is a frame, after frame i and up to frame j since the mark, with nothing left to play. */
  ghost predicate DryBetween(es: seq<Event>, mark: nat, i: nat, j: nat, k: nat)
    requires Inv(EMPTY)
  {
    && k < |es| && es[k].Frame?
    && var l := Run(EMPTY, es[..k]);
       l.mark == mark && i < |l.parts| <= j && l.state.queue == []
  }

  lemma DryEarlier(es: seq<Event>, n: nat, mark: nat, i: nat, j: nat, later: nat, k: nat)
    requires Inv(EMPTY) && n <= |es| && j <= later && DryBetween(es[..n], mark, i, j, k)
    ensures DryBetween(es, mark, i, later, k)
  {
    hide Inv, EMPTY, Run;
    assert es[..n][..k] == es[..k];
  }

  /**
   Silence after audio: if frame i since the last barge-in carried audio and a later frame j none,
   then at some frame after i and up to j the buffer was empty.
   */
  lemma {:induction false} SilenceMeansDry(es: seq<Event>, i: nat, j: nat) returns (k: nat)
    requires Inv(EMPTY)
    requires var r := Run(EMPTY, es);
      r.mark <= i < j < |r.parts| && r.parts[i] != [] && r.parts[j] == []
    ensures DryBetween(es, Run(EMPTY, es).mark, i, j, k)
    decreases |es|
  {
    assert es != [];
    hide Inv, Run, EMPTY, CushionInv, Armed, Step, DryBetween;
    var n := |es| - 1;
    var before, mark := Run(EMPTY, es[..n]), Run(EMPTY, es).mark;
    RunKeepsCushion(es[..n]);
    CushionBounds(before);
    RunUnfolds(es);
    SilentFrame(before, es[n], i, j);
    if j == |before.parts| && !Armed(before) {
      k := n;
      DryHere(es, mark, i, j);
    } else {
      var earlier := if j < |before.parts| then j else j - 1;
      k := SilenceMeansDry(es[..n], i, earlier);
      DryEarlier(es, n, mark, i, earlier, j, k);
    }
  }

  lemma CushionBounds(l: Log)
    requires CushionInv(l)
    ensures |l.state.queue| <= CAPACITY
  {
  }

  lemma DryHere(es: seq<Event>, mark: nat, i: nat, j: nat)
    requires Inv(EMPTY) && es != [] && es[|es| - 1].Frame?
    requires var l := Run(EMPTY, es[..|es| - 1]);
      l.mark == mark && i < |l.parts| <= j && l.state.queue == []
    ensures DryBetween(es, mark, i, j, |es| - 1)
  {
    hide Inv, EMPTY, Run;
  }

  lemma RunUnfolds(es: seq<Event>)
    requires Inv(EMPTY) && es != []
    ensures Run(EMPTY, es) == Step(Run(EMPTY, es[..|es| - 1]), es[|es| - 1])
  {
    hide Inv, Step;
  }

  /** Where the silent frame j of a log came from. */
  lemma SilentFrame(l: Log, e: Event, i: nat, j: nat)
    requires CushionInv(l)
    requires var r := Step(l, e);
      r.mark <= i < j < |r.parts| && r.parts[i] != [] && r.parts[j] == []
    ensures l.mark == Step(l, e).mark && i < |l.parts| && l.parts[i] != []
    ensures j < |l.parts| ==> l.parts[j] == []
    ensures j >= |l.parts| ==> j == |l.parts| && e.Frame?
    ensures j >= |l.parts| && Armed(l) ==> i < j - 1 && l.parts[j - 1] == []
    ensures j >= |l.parts| && !Armed(l) ==> l.state.queue == []
  {
    hide StartsFull, InHand;
    if e.Frame? {
      FramePart(l, i);
      FramePart(l, j);
    }
  }
}
