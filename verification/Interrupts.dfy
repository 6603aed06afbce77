/**
 Barge-in and overflow over the inputs of the writer's run loop: which bytes of the audio handed to
 it go out, wherever commands and ticks fall.
 */
module Interrupts {
  import opened Common
  import opened Playout
  import opened Writer
  import opened Wire
  import MediaClock
  import Supply

  /** The log after a run of inputs from a fresh writer. */
  ghost function LogOf(ins: seq<Input>): (l: Log)
    ensures Inv(l)
  {
    EmptyInv();
    Playout.Run(EMPTY, Expand(ins))
  }

  /** What still fits of a chunk into the 30 seconds the ring holds. */
  function Fitting(queued: int, audio: seq<byte>): seq<byte>
    requires queued <= 240_000
  {
    if queued + |audio| <= 240_000 then audio else audio[..240_000 - queued]
  }

  // ---- one input -------------------------------------------------------------------------

  lemma OneInput(ins: seq<Input>, x: Input)
    ensures LogOf(ins + [x]) == Playout.Run(LogOf(ins), Events(MediaClock.Run(Ticks(ins)).last, x))
  {
    hide Events, Ticks, Expand, Playout.Run, EMPTY;
    AppendInput(ins, x);
  }

  /** A barge-in empties the buffer and waits for a new cushion; the frames before it stand. */
  lemma BargeInClears(ins: seq<Input>)
    ensures var before, after := LogOf(ins), LogOf(ins + [BargeIn]);
      && after.state == Buffer([], false, true)
      && after.parts == before.parts && after.mark == |before.parts|
      && after.accepted == [] && after.discarded == before.discarded + |before.state.queue|
      && after.offered == before.offered && after.dropped == before.dropped
  {
    OneInput(ins, BargeIn);
    OneEvent(LogOf(ins), Interrupt);
    hide LogOf, Playout.Run, EMPTY;
    assert |LogOf(ins).state.queue| <= CAPACITY;
    hide Inv;
  }

  /** Audio joins the queue as far as it fits; the rest is dropped, and nothing already queued is. */
  lemma AudioJoins(ins: seq<Input>, audio: seq<byte>)
    ensures |LogOf(ins).state.queue| <= 240_000
    ensures var before, after := LogOf(ins), LogOf(ins + [Audio(audio)]);
      var taken := Fitting(|before.state.queue|, audio);
      && after.state.queue == before.state.queue + taken && after.accepted == before.accepted + taken
      && after.state.buffering == before.state.buffering
      && after.state.overCap == (if audio == [] then before.state.overCap else taken != audio)
      && after.parts == before.parts && after.mark == before.mark
      && after.offered == before.offered + |audio| && after.discarded == before.discarded
      && after.dropped == before.dropped + |audio| - |taken|
  {
    OneInput(ins, Audio(audio));
    OneEvent(LogOf(ins), Enqueue(audio));
    hide LogOf, Playout.Run, EMPTY;
    assert |LogOf(ins).state.queue| <= CAPACITY;
    hide Inv;
    AudioStep(LogOf(ins), audio);
  }

  lemma AudioStep(l: Log, audio: seq<byte>)
    requires |l.state.queue| <= CAPACITY
    ensures |l.state.queue| <= 240_000
    ensures var after, taken := Step(l, Enqueue(audio)), Fitting(|l.state.queue|, audio);
      && after == l.(state := after.state, accepted := l.accepted + taken, offered := l.offered + |audio|,
                     dropped := l.dropped + |audio| - |taken|)
      && after.state == Buffer(l.state.queue + taken, if audio == [] then l.state.overCap else taken != audio,
                               l.state.buffering)
  {
    EnqueueIs(l.state, audio);
    hide Apply;
    assert audio[..|audio|] == audio;
  }

  /** A tick only moves bytes from the front of the queue into frames. */
  lemma TickPlays(ins: seq<Input>, now: int)
    ensures var before, after := LogOf(ins), LogOf(ins + [Tick(now)]);
      && before.parts <= after.parts
      && |after.parts| == |before.parts| + MediaClock.Due(MediaClock.Run(Ticks(ins)).last, now)
      && after.mark == before.mark && after.accepted == before.accepted
      && after.offered == before.offered && after.dropped == before.dropped
      && after.discarded == before.discarded
      && after.state.overCap == before.state.overCap
      && Flatten(after.parts[|before.parts|..]) + after.state.queue == before.state.queue
  {
    OneInput(ins, Tick(now));
    hide LogOf, Playout.Run, EMPTY, Inv, Flatten;
    FramesMoveBytes(LogOf(ins), MediaClock.Due(MediaClock.Run(Ticks(ins)).last, now));
  }

  /** n frames later, with everything but the frames and the queue as it was. */
  ghost predicate Played(before: Log, after: Log, n: nat) {
    && before.parts <= after.parts && |after.parts| == |before.parts| + n
    && after.mark == before.mark && after.accepted == before.accepted
    && after.offered == before.offered && after.dropped == before.dropped
    && after.discarded == before.discarded && after.state.overCap == before.state.overCap
    && Flatten(after.parts[|before.parts|..]) + after.state.queue == before.state.queue
  }

  lemma {:induction false} FramesMoveBytes(l: Log, n: nat)
    requires Inv(l)
    ensures Played(l, Playout.Run(l, FrameEvents(n)), n)
  {
    OneMoreFrame(l, if n == 0 then 0 else n - 1);
    if n == 0 {
      assert l.parts[|l.parts|..] == [];
    } else {
      hide Playout.Run, FrameEvents, Inv, Played, Step;
      FramesMoveBytes(l, n - 1);
      FrameMovesBytes(l, Playout.Run(l, FrameEvents(n - 1)), n - 1);
    }
  }

  lemma FrameMovesBytes(l: Log, before: Log, n: nat)
    requires Inv(before) && Played(l, before, n)
    ensures |before.state.queue| <= CAPACITY && Played(l, Step(before, Frame), n + 1)
  {
    assert |before.state.queue| <= CAPACITY;
    var part, rest := Part(before.state), before.state.queue[RealBytes(before.state)..];
    assert part + rest == before.state.queue;
    hide Inv, Flatten, RealBytes;
    FramePlayed(before.parts, |l.parts|, part, rest);
  }

  // ---- runs of inputs --------------------------------------------------------------------

  /** All audio among the inputs, in order. */
  function Sound(ins: seq<Input>): seq<byte> {
    if ins == [] then []
    else Sound(ins[..|ins| - 1]) + match ins[|ins| - 1] { case Audio(audio) => audio case _ => [] }
  }

  /** The bytes of rest that fit, chunk by chunk, when it is handled after pre. */
  ghost function Accepted(pre: seq<Input>, rest: seq<Input>): seq<byte> {
    if rest == [] then []
    else
      var init := rest[..|rest| - 1];
      assert Inv(LogOf(pre + init));
      Accepted(pre, init) + match rest[|rest| - 1] {
        case Audio(audio) => Fitting(|LogOf(pre + init).state.queue|, audio)
        case _ => []
      }
  }

  /** Every audio byte handed to the run loop was offered to the buffer, and none other. */
  lemma {:induction false} OfferedIsSound(ins: seq<Input>)
    ensures LogOf(ins).offered == |Sound(ins)|
    ensures BargeIn !in ins ==> LogOf(ins).discarded == 0
  {
    if ins == [] {
    } else {
      hide LogOf;
      var init, x := ins[..|ins| - 1], ins[|ins| - 1];
      OfferedIsSound(init);
      SplitLast([], ins);
      match x
      case Audio(audio) => AudioJoins(init, audio);
      case BargeIn => BargeInClears(init);
      case Tick(now) => TickPlays(init, now);
    }
  }

  /** What one input that is no barge-in does to mark, accepted bytes and frames. */
  lemma OneMoreSince(pre: seq<Input>, rest: seq<Input>)
    requires rest != [] && !rest[|rest| - 1].BargeIn?
    ensures var before, after := LogOf(pre + rest[..|rest| - 1]), LogOf(pre + rest);
      && after.mark == before.mark && before.parts <= after.parts
      && (before.accepted == Accepted(pre, rest[..|rest| - 1]) ==> after.accepted == Accepted(pre, rest))
  {
    hide LogOf, Fitting, Flatten;
    var init, x := rest[..|rest| - 1], rest[|rest| - 1];
    SplitLast(pre, rest);
    match x
    case Audio(audio) => AudioJoins(pre + init, audio);
    case Tick(now) => TickPlays(pre + init, now);
  }

  /** Bytes accepted since a barge-in. */
  lemma {:induction false} AcceptedSince(pre: seq<Input>, rest: seq<Input>)
    requires BargeIn !in rest
    ensures var before, after := LogOf(pre), LogOf(pre + [BargeIn] + rest);
      && after.mark == |before.parts| && before.parts <= after.parts
      && after.accepted == Accepted(pre + [BargeIn], rest)
    decreases |rest|
  {
    if rest == [] {
      assert pre + [BargeIn] + rest == pre + [BargeIn];
      hide LogOf;
      BargeInClears(pre);
    } else {
      hide LogOf;
      Supply.NoBargeIn(rest);
      AcceptedSince(pre, rest[..|rest| - 1]);
      OneMoreSince(pre + [BargeIn], rest);
      hide Accepted;
    }
  }

  /**
   After a barge-in, wherever it falls, what the later frames carry followed by what is buffered is
   exactly the later audio, each chunk as far as it fitted: not a byte of the audio before it.
   */
  lemma HeardAfterBargeIn(pre: seq<Input>, rest: seq<Input>)
    requires BargeIn !in rest
    ensures var before, after := LogOf(pre), LogOf(pre + [BargeIn] + rest);
      && before.parts <= after.parts
      && Flatten(after.parts[|before.parts|..]) + after.state.queue == Accepted(pre + [BargeIn], rest)
  {
    hide LogOf, Accepted, Flatten;
    AcceptedSince(pre, rest);
    assert Inv(LogOf(pre + [BargeIn] + rest));
  }

  /** The same from the start of a call. */
  lemma {:induction false} HeardFromStart(ins: seq<Input>)
    requires BargeIn !in ins
    ensures LogOf(ins).mark == 0 && LogOf(ins).accepted == Accepted([], ins)
    ensures Flatten(LogOf(ins).parts) + LogOf(ins).state.queue == Accepted([], ins)
    decreases |ins|
  {
    if ins == [] {
    } else {
      hide LogOf;
      Supply.NoBargeIn(ins);
      HeardFromStart(ins[..|ins| - 1]);
      assert [] + ins == ins && [] + ins[..|ins| - 1] == ins[..|ins| - 1];
      OneMoreSince([], ins);
      assert Inv(LogOf(ins));
      hide Accepted, Flatten;
      assert LogOf(ins).parts[0..] == LogOf(ins).parts;
    }
  }

  lemma {:induction false} AcceptedNothing(pre: seq<Input>, rest: seq<Input>)
    requires forall x :: x in rest ==> x.Tick?
    ensures Accepted(pre, rest) == []
    decreases |rest|
  {
    if rest == [] {
    } else {
      assert forall x :: x in rest[..|rest| - 1] ==> x in rest;
      AcceptedNothing(pre, rest[..|rest| - 1]);
      assert rest[|rest| - 1] in rest;
      hide LogOf;
    }
  }

  lemma {:induction false} EmptyParts(parts: seq<seq<byte>>)
    requires Flatten(parts) == []
    ensures forall k :: 0 <= k < |parts| ==> parts[k] == []
  {
    if parts == [] {
    } else {
      EmptyParts(parts[1..]);
    }
  }

  /** Until new audio comes, every frame after a barge-in is silence. */
  lemma SilentAfterBargeIn(pre: seq<Input>, ticks: seq<Input>, k: nat)
    requires forall x :: x in ticks ==> x.Tick?
    requires |LogOf(pre).parts| <= k < |LogOf(pre + [BargeIn] + ticks).parts|
    ensures Padded(LogOf(pre + [BargeIn] + ticks).parts[k]) == seq(160, i => 0xFF)
  {
    hide LogOf, Accepted, Flatten;
    var before, after := LogOf(pre), LogOf(pre + [BargeIn] + ticks);
    assert BargeIn !in ticks;
    HeardAfterBargeIn(pre, ticks);
    AcceptedNothing(pre + [BargeIn], ticks);
    var since := after.parts[|before.parts|..];
    EmptyParts(since);
    assert since[k - |before.parts|] == after.parts[k];
  }

  /** Unless some of it was dropped, all the audio of rest was accepted. */
  lemma {:induction false} NothingDropped(pre: seq<Input>, rest: seq<Input>)
    ensures LogOf(pre).dropped <= LogOf(pre + rest).dropped
    ensures LogOf(pre + rest).dropped == LogOf(pre).dropped ==> Accepted(pre, rest) == Sound(rest)
    decreases |rest|
  {
    hide LogOf;
    if rest == [] {
      assert pre + rest == pre;
    } else {
      var init, x := rest[..|rest| - 1], rest[|rest| - 1];
      NothingDropped(pre, init);
      SplitLast(pre, rest);
      OneMoreDropped(pre + init, x);
      assert Inv(LogOf(pre + init));
    }
  }

  lemma OneMoreDropped(ins: seq<Input>, x: Input)
    ensures |LogOf(ins).state.queue| <= 240_000
    ensures LogOf(ins).dropped <= LogOf(ins + [x]).dropped
    ensures x.Audio? && LogOf(ins + [x]).dropped == LogOf(ins).dropped ==>
      Fitting(|LogOf(ins).state.queue|, x.audio) == x.audio
  {
    hide LogOf, Flatten;
    AudioJoins(ins, if x.Audio? then x.audio else []);
    match x
    case Audio(audio) =>
    case BargeIn => BargeInClears(ins);
    case Tick(now) => TickPlays(ins, now);
  }

  lemma SoundSnoc(ins: seq<Input>, x: Input)
    ensures Sound(ins + [x]) == Sound(ins) + match x { case Audio(audio) => audio case _ => [] }
  {
    assert (ins + [x])[..|ins|] == ins;
  }

  lemma {:induction false} SoundConcat(a: seq<Input>, b: seq<Input>)
    ensures Sound(a + b) == Sound(a) + Sound(b)
    decreases |b|
  {
    if b == [] {
      assert a + b == a;
    } else {
      hide *;
      var init, last := b[..|b| - 1], b[|b| - 1];
      SoundConcat(a, init);
      SplitLast(a, b);
      SoundSnoc(a + init, last);
      SoundSnoc(init, last);
      Reassociate(Sound(a), Sound(init), match last { case Audio(audio) => audio case _ => [] });
    }
  }
}
