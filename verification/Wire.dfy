/** Clock, playout and packet numbering together: what a run of the writer puts on the wire. */
module Wire {
  import opened Common
  import opened Playout
  import opened MediaClock
  import opened Writer
  import Mulaw
  import Rtp

  /** What the writer's run loop handles, in order. */
  datatype Input = Audio(audio: seq<byte>) | BargeIn | Tick(now: int)

  function Ticks(ins: seq<Input>): seq<int> {
    if ins == [] then []
    else Ticks(ins[..|ins| - 1]) + match ins[|ins| - 1] { case Tick(now) => [now] case _ => [] }
  }

  /** The playout events of one input, given the clock before it. */
  ghost function Events(last: Option<int>, input: Input): seq<Event> {
    match input
    case Audio(audio) => [Enqueue(audio)]
    case BargeIn => [Interrupt]
    case Tick(now) => FrameEvents(Due(last, now))
  }

  ghost function Expand(ins: seq<Input>): seq<Event> {
    if ins == [] then []
    else
      var n := |ins| - 1;
      Expand(ins[..n]) + Events(MediaClock.Run(Ticks(ins[..n])).last, ins[n])
  }

  lemma {:induction false} FramesInConcat(a: seq<Event>, b: seq<Event>)
    ensures FramesIn(a + b) == FramesIn(a) + FramesIn(b)
    decreases |b|
  {
    if b == [] {
      assert a + b == a;
    } else {
      FramesInConcat(a, b[..|b| - 1]);
      assert (a + b)[..|a + b| - 1] == a + b[..|b| - 1];
    }
  }

  lemma {:induction false} FramesInFrames(n: nat)
    ensures FramesIn(FrameEvents(n)) == n
  {
    if n == 0 {
    } else {
      FramesInFrames(n - 1);
      assert FrameEvents(n)[..n - 1] == FrameEvents(n - 1);
    }
  }

  lemma EventsFrames(last: Option<int>, input: Input)
    ensures FramesIn(Events(last, input)) == match input { case Tick(now) => Due(last, now) case _ => 0 }
  {
    match input
    case Tick(now) => FramesInFrames(Due(last, now));
    case Audio(audio) => assert [Enqueue(audio)][..0] == [];
    case BargeIn => assert [Interrupt][..0] == [];
  }

  /** How many frames go out is decided by the ticks alone, whatever audio came in between. */
  lemma {:induction false} FrameCountIsClock(ins: seq<Input>)
    ensures FramesIn(Expand(ins)) == MediaClock.Run(Ticks(ins)).frames
    decreases |ins|
  {
    if ins == [] {
    } else {
      var n := |ins| - 1;
      FrameCountIsClock(ins[..n]);
      var last := MediaClock.Run(Ticks(ins[..n])).last;
      EventsFrames(last, ins[n]);
      FramesInConcat(Expand(ins[..n]), Events(last, ins[n]));
      hide Events, AddTick;
      if ins[n].Tick? {
        MediaClock.RunSnoc(Ticks(ins[..n]), ins[n].now);
        AddTickFrames(MediaClock.Run(Ticks(ins[..n])), ins[n].now);
      } else {
        assert Ticks(ins[..n]) + [] == Ticks(ins[..n]);
      }
    }
  }

  lemma AddTickFrames(before: Totals, now: int)
    ensures AddTick(before, now).frames == before.frames + Due(before.last, now)
  {
  }

  /** One logged part per frame. */
  lemma {:induction false} PartsAreFrames(l: Log, es: seq<Event>)
    requires Inv(l)
    ensures |Playout.Run(l, es).parts| == |l.parts| + FramesIn(es)
    decreases |es|
  {
    if es == [] {
    } else {
      PartsAreFrames(l, es[..|es| - 1]);
      hide Inv, Apply;
    }
  }

  /** A frame is the real bytes followed by silence: the padding decodes to zero samples. */
  lemma PaddingIsSilence(part: seq<byte>, i: nat)
    requires |part| <= i < |Padded(part)|
    ensures |Padded(part)| == 160 && part <= Padded(part)
    ensures Mulaw.DecodeByte(Padded(part)[i]) == 0
  {
    Mulaw.ZeroCodes();
  }

  /** Every packet of a run carries a full frame. */
  lemma FullPayloads(l: Log)
    requires Inv(l)
    ensures |PadAll(l.parts)| == |l.parts| && [] !in PadAll(l.parts)
    ensures forall k :: 0 <= k < |l.parts| ==>
      |PadAll(l.parts)[k]| == Rtp.SAMPLES_PER_FRAME && l.parts[k] <= PadAll(l.parts)[k]
  {
    hide Flatten;
    forall k | 0 <= k < |l.parts|
      ensures |Padded(l.parts[k])| == Rtp.SAMPLES_PER_FRAME && l.parts[k] <= Padded(l.parts[k])
    {
    }
  }

  /**
   What steady ticks put on the wire: packet k carries the k-th sequence number and timestamp and a
   full payload of 160 bytes, and at 125 microseconds a sample the stream is within 15 ms of the wall
   clock: never more than 5 ms ahead, never 15 ms behind.
   */
  ghost predicate OnTheClock(st: Rtp.Sender, conf: Rtp.Settings, ticks: seq<int>, payloads: seq<seq<byte>>)
    requires st.remote.Some? && ticks != []
  {
    var elapsed := ticks[|ticks| - 1] - ticks[0];
    && |payloads| == ClosedForm(ticks[0], ticks[|ticks| - 1]) >= 1
    && Rtp.Numbered(st, conf, payloads, Rtp.SendAll(st, conf, payloads))
    && Rtp.SendAll(st, conf, payloads).ts == (st.ts + 160 * |payloads|) % 0x1_0000_0000
    && (forall k :: 0 <= k < |payloads| ==> |payloads[k]| == 160)
    && -15_000_000 < (|payloads| - 1) * 160 * 125_000 - elapsed <= 5_000_000
  }

  /** Every run with steady ticks, whatever audio and barge-ins fall between them. */
  lemma TimestampsFollowWallClock(st: Rtp.Sender, conf: Rtp.Settings, ins: seq<Input>)
    requires st.remote.Some? && (conf.outboundFrameBytes <= 0 || conf.outboundFrameBytes == 160)
    requires Ticks(ins) != [] && NonDecreasing(Ticks(ins)) && Steady(Ticks(ins))
    ensures Inv(EMPTY)
    ensures OnTheClock(st, conf, Ticks(ins), PadAll(Playout.Run(EMPTY, Expand(ins)).parts))
  {
    EmptyInv();
    var ticks, l := Ticks(ins), Playout.Run(EMPTY, Expand(ins));
    var payloads := PadAll(l.parts);
    hide *;
    PartsAreFrames(EMPTY, Expand(ins));
    FrameCountIsClock(ins);
    ReanchorCondition(ticks);
    ClosedFormHolds(ticks);
    FullPayloads(l);
    OnTheClockIs(st, conf, ticks, payloads);
  }

  lemma OnTheClockIs(st: Rtp.Sender, conf: Rtp.Settings, ticks: seq<int>, payloads: seq<seq<byte>>)
    requires st.remote.Some? && (conf.outboundFrameBytes <= 0 || conf.outboundFrameBytes == 160)
    requires ticks != [] && NonDecreasing(ticks) && [] !in payloads
    requires |payloads| == ClosedForm(ticks[0], ticks[|ticks| - 1])
    requires forall k :: 0 <= k < |payloads| ==> |payloads[k]| == 160
    ensures OnTheClock(st, conf, ticks, payloads)
  {
    hide Rtp.Numbered, Rtp.SendAll, ClosedForm, NonDecreasing;
    Rtp.WireNumbering(st, conf, payloads);
    StampAfter(st, conf, payloads, Rtp.SendAll(st, conf, payloads));
    NearWallClock(|payloads|, ticks[0], ticks[|ticks| - 1]);
    OrderedEnds(ticks);
  }

  lemma StampAfter(st: Rtp.Sender, conf: Rtp.Settings, payloads: seq<seq<byte>>, after: Rtp.Sender)
    requires st.remote.Some? && (conf.outboundFrameBytes <= 0 || conf.outboundFrameBytes == 160)
    requires Rtp.Numbered(st, conf, payloads, after)
    ensures after.ts == (st.ts + 160 * |payloads|) % 0x1_0000_0000
  {
  }

  lemma NearWallClock(n: int, start: int, now: int)
    requires n == ClosedForm(start, now)
    ensures -15_000_000 < (n - 1) * 160 * 125_000 - (now - start) <= 5_000_000
    ensures start <= now ==> n >= 1
  {
  }

  lemma {:induction false} OrderedEnds(ticks: seq<int>)
    requires ticks != [] && NonDecreasing(ticks)
    ensures ticks[0] <= ticks[|ticks| - 1]
    decreases |ticks|
  {
    var n := |ticks| - 1;
    if n == 0 {
    } else {
      assert ticks[n - 1] <= ticks[n];
      OrderedEnds(ticks[..n]);
    }
  }

  // ---- the run loop ----------------------------------------------------------------------

  /** Handling inputs one by one. */
  lemma ExpandSnoc(ins: seq<Input>, i: nat)
    requires i < |ins|
    ensures Inv(EMPTY)
    ensures Playout.Run(EMPTY, Expand(ins[..i + 1]))
      == Playout.Run(Playout.Run(EMPTY, Expand(ins[..i])), Events(MediaClock.Run(Ticks(ins[..i])).last, ins[i]))
    ensures MediaClock.Run(Ticks(ins[..i + 1])).last ==
      if ins[i].Tick? then Some(Advance(MediaClock.Run(Ticks(ins[..i])).last, ins[i].now))
      else MediaClock.Run(Ticks(ins[..i])).last
  {
    assert ins[..i] + [ins[i]] == ins[..i + 1];
    AppendInput(ins[..i], ins[i]);
    hide Events, Inv, Playout.Run, Ticks, Expand;
    if ins[i].Tick? {
      MediaClock.RunSnoc(Ticks(ins[..i]), ins[i].now);
    } else {
      assert Ticks(ins[..i]) + [] == Ticks(ins[..i]);
    }
  }

  lemma OneEvent(l: Log, e: Event)
    requires Inv(l)
    ensures Playout.Run(l, [e]) == Step(l, e)
  {
    assert [] + [e] == [e];
    Playout.RunSnoc(l, [], e);
  }

  lemma PacketsConcat(st: Rtp.Sender, conf: Rtp.Settings, parts: seq<seq<byte>>, m: nat)
    requires m <= |parts|
    ensures Rtp.SendAll(st, conf, PadAll(parts))
         == Rtp.SendAll(Rtp.SendAll(st, conf, PadAll(parts[..m])), conf, PadAll(parts[m..]))
  {
    hide Padded;
    assert PadAll(parts) == PadAll(parts[..m]) + PadAll(parts[m..]);
    Rtp.SendAllConcat(st, conf, PadAll(parts[..m]), PadAll(parts[m..]));
  }

  lemma PartsGrow(l: Log, es: seq<Event>)
    requires Inv(l)
    ensures l.parts <= Playout.Run(l, es).parts
    decreases |es|
  {
    if es != [] {
      PartsGrow(l, es[..|es| - 1]);
      hide Inv, Apply, Part;
    }
  }

  /** The run loop of a fresh writer does to its log and its port what the theorems above are about. */
  method RunLoop(w: OutboundWriter, ins: seq<Input>)
    requires w.Valid() && w.log == EMPTY && w.lastFrameEnd.None?
    modifies w, w.ring, w.ring.buf, w.frameBuf, w.port
    ensures w.Valid() && Inv(EMPTY) && w.log == Playout.Run(EMPTY, Expand(ins))
    ensures w.lastFrameEnd == MediaClock.Run(Ticks(ins)).last
    ensures w.port.Snapshot() == Rtp.SendAll(old(w.port.Snapshot()), w.port.conf, PadAll(w.log.parts))
  {
    ghost var base := w.port.Snapshot();
    EmptyInv();
    Playout.RunSnoc(EMPTY, [], Frame);
    OneMorePacket(base, w.port.conf, [], []);
    assert EMPTY.parts == [];
    hide OutboundWriter.Valid, Playout.Run, Expand, Ticks, Inv, Rtp.SendAll, MediaClock.Run, EMPTY;
    for i := 0 to |ins|
      invariant w.Valid() && Inv(EMPTY) && w.log == Playout.Run(EMPTY, Expand(ins[..i]))
      invariant w.lastFrameEnd == MediaClock.Run(Ticks(ins[..i])).last
      invariant w.port.Snapshot() == Rtp.SendAll(base, w.port.conf, PadAll(w.log.parts))
    {
      ExpandSnoc(ins, i);
      HandleOne(w, ins[i], base);
    }
    assert ins[..|ins|] == ins;
  }

  method HandleOne(w: OutboundWriter, input: Input, ghost base: Rtp.Sender)
    requires w.Valid() && Inv(w.log)
    requires w.port.Snapshot() == Rtp.SendAll(base, w.port.conf, PadAll(w.log.parts))
    modifies w, w.ring, w.ring.buf, w.frameBuf, w.port
    ensures w.Valid() && w.log == Playout.Run(old(w.log), Events(old(w.lastFrameEnd), input))
    ensures w.lastFrameEnd ==
      if input.Tick? then Some(Advance(old(w.lastFrameEnd), input.now)) else old(w.lastFrameEnd)
    ensures w.port.Snapshot() == Rtp.SendAll(base, w.port.conf, PadAll(w.log.parts))
  {
    ghost var l := w.log;
    PartsGrow(l, Events(w.lastFrameEnd, input));
    assert |l.state.queue| <= CAPACITY;
    match input
    case Audio(audio) =>
      OneEvent(l, Enqueue(audio));
      hide OutboundWriter.Valid, Inv, Playout.Run, Rtp.SendAll, Apply;
      w.HandleCommand(Enqueue(audio));
    case BargeIn =>
      OneEvent(l, Interrupt);
      hide OutboundWriter.Valid, Inv, Playout.Run, Rtp.SendAll, Apply;
      w.HandleCommand(Interrupt);
    case Tick(now) =>
      hide OutboundWriter.Valid, Inv, Playout.Run, Rtp.SendAll, Apply, FrameEvents, Due, Advance;
      w.EmitDue(now);
      assert w.log.parts[..|l.parts|] == l.parts;
      PacketsConcat(base, w.port.conf, w.log.parts, |l.parts|);
  }

  // ---- chunk boundaries on the wire ------------------------------------------------------

  lemma AppendInput(ins: seq<Input>, x: Input)
    ensures Inv(EMPTY)
    ensures Playout.Run(EMPTY, Expand(ins + [x]))
      == Playout.Run(Playout.Run(EMPTY, Expand(ins)), Events(MediaClock.Run(Ticks(ins)).last, x))
    ensures Ticks(ins + [x]) == Ticks(ins) + if x.Tick? then [x.now] else []
  {
    EmptyInv();
    assert (ins + [x])[..|ins|] == ins;
    RunConcat(EMPTY, Expand(ins), Events(MediaClock.Run(Ticks(ins)).last, x));
  }

  /** Audio that follows audio joins the chunk before it. */
  ghost function Join(init: seq<Input>, last: Input): seq<Input> {
    if init != [] && init[|init| - 1].Audio? && last.Audio?
    then init[..|init| - 1] + [Audio(init[|init| - 1].audio + last.audio)]
    else init + [last]
  }

  /** Adjacent chunks of audio run together. */
  ghost function Merge(ins: seq<Input>): seq<Input>
    decreases |ins|
  {
    if ins == [] then [] else Join(Merge(ins[..|ins| - 1]), ins[|ins| - 1])
  }

  ghost predicate SameRun(a: seq<Input>, b: seq<Input>)
    ensures Inv(EMPTY)
  {
    EmptyInv();
    Ticks(a) == Ticks(b) && Playout.Run(EMPTY, Expand(a)) == Playout.Run(EMPTY, Expand(b))
  }

  lemma SameRunAppend(a: seq<Input>, b: seq<Input>, x: Input)
    requires SameRun(a, b)
    ensures SameRun(a + [x], b + [x])
  {
    AppendInput(a, x);
    AppendInput(b, x);
    hide Inv, Expand, Ticks, Playout.Run, Events;
  }

  lemma SplitChunk(pre: seq<Input>, a: seq<byte>, b: seq<byte>)
    ensures SameRun(pre + [Audio(a)] + [Audio(b)], pre + [Audio(a + b)])
  {
    AppendInput(pre, Audio(a));
    AppendInput(pre + [Audio(a)], Audio(b));
    AppendInput(pre, Audio(a + b));
    var l := Playout.Run(EMPTY, Expand(pre));
    StepKeepsInv(l, Enqueue(a));
    OneEvent(l, Enqueue(a));
    OneEvent(Step(l, Enqueue(a)), Enqueue(b));
    OneEvent(l, Enqueue(a + b));
    SplitEnqueue(l, a, b);
    hide Inv, Expand, Playout.Run, Step, Ticks;
    assert Ticks(pre) + [] == Ticks(pre);
  }

  /** An empty chunk changes nothing. */
  lemma EmptyChunk(pre: seq<Input>)
    ensures SameRun(pre + [Audio([])], pre)
  {
    AppendInput(pre, Audio([]));
    var l := Playout.Run(EMPTY, Expand(pre));
    OneEvent(l, Enqueue([]));
    EnqueueNothing(l);
    hide Inv, Expand, Playout.Run, Step, Ticks;
    assert Ticks(pre) + [] == Ticks(pre);
  }

  lemma EnqueueNothing(l: Log)
    requires |l.state.queue| <= CAPACITY
    ensures Step(l, Enqueue([])) == l
  {
    assert l.accepted + [] == l.accepted;
  }

  lemma JoinSameRun(init: seq<Input>, last: Input)
    ensures SameRun(Join(init, last), init + [last])
  {
    hide SameRun;
    SameRunTransitive(init + [last], init + [last], init + [last]);
    if init != [] && init[|init| - 1].Audio? && last.Audio? {
      var pre, a := init[..|init| - 1], init[|init| - 1].audio;
      assert pre + [Audio(a)] == init;
      SplitChunk(pre, a, last.audio);
      SameRunTransitive(pre + [Audio(a + last.audio)], init + [last], init + [last]);
    }
  }

  lemma {:induction false} MergedRun(ins: seq<Input>)
    ensures SameRun(Merge(ins), ins)
    decreases |ins|
  {
    hide SameRun, Join;
    if ins == [] {
      SameRunTransitive([], [], []);
    } else {
      var init, last := ins[..|ins| - 1], ins[|ins| - 1];
      MergedRun(init);
      assert init + [last] == ins;
      SameRunAppend(Merge(init), init, last);
      JoinSameRun(Merge(init), last);
      SameRunTransitive(Join(Merge(init), last), Merge(init) + [last], ins);
    }
  }

  lemma SameRunTransitive(a: seq<Input>, b: seq<Input>, c: seq<Input>)
    ensures SameRun(a, b) && SameRun(b, c) ==> SameRun(a, c)
    ensures SameRun(b, a) && SameRun(b, c) ==> SameRun(a, c)
    ensures SameRun(a, a)
  {
  }

  /** One audio input for each chunk. */
  function Chunks(audio: seq<seq<byte>>): seq<Input> {
    if audio == [] then [] else Chunks(audio[..|audio| - 1]) + [Audio(audio[|audio| - 1])]
  }

  lemma SameRunSymmetric(a: seq<Input>, b: seq<Input>)
    requires SameRun(a, b)
    ensures SameRun(b, a)
  {
  }

  lemma {:induction false} OneChunkInstead(pre: seq<Input>, audio: seq<seq<byte>>)
    ensures SameRun(pre + Chunks(audio), pre + [Audio(Flatten(audio))])
    decreases |audio|
  {
    hide SameRun;
    if audio == [] {
      assert pre + Chunks(audio) == pre;
      EmptyChunk(pre);
      SameRunSymmetric(pre + [Audio([])], pre);
    } else {
      hide *;
      var init, last := audio[..|audio| - 1], audio[|audio| - 1];
      OneChunkInstead(pre, init);
      SameRunAppend(pre + Chunks(init), pre + [Audio(Flatten(init))], Audio(last));
      SplitChunk(pre, Flatten(init), last);
      LastChunk(pre, audio);
      SameRunTransitive(pre + Chunks(audio), pre + [Audio(Flatten(init))] + [Audio(last)],
                        pre + [Audio(Flatten(audio))]);
    }
  }

  lemma LastChunk(pre: seq<Input>, audio: seq<seq<byte>>)
    requires audio != []
    ensures Flatten(audio) == Flatten(audio[..|audio| - 1]) + audio[|audio| - 1]
    ensures pre + Chunks(audio) == pre + Chunks(audio[..|audio| - 1]) + [Audio(audio[|audio| - 1])]
  {
    SplitLast([], audio);
    FlattenSnoc(audio[..|audio| - 1], audio[|audio| - 1]);
    Reassociate(pre, Chunks(audio[..|audio| - 1]), [Audio(audio[|audio| - 1])]);
    hide Flatten;
  }

  lemma {:induction false} SameRunConcat(a: seq<Input>, b: seq<Input>, post: seq<Input>)
    requires SameRun(a, b)
    ensures SameRun(a + post, b + post)
    decreases |post|
  {
    hide SameRun;
    if post == [] {
      assert a + post == a && b + post == b;
    } else {
      SameRunConcat(a, b, post[..|post| - 1]);
      SameRunAppend(a + post[..|post| - 1], b + post[..|post| - 1], post[|post| - 1]);
      SplitLast(a, post);
      SplitLast(b, post);
    }
  }

  /** Wherever it falls in a run, the same audio in other chunks gives the same log. */
  lemma SameSoundSameRun(pre: seq<Input>, audio: seq<seq<byte>>, audio': seq<seq<byte>>, post: seq<Input>)
    requires Flatten(audio) == Flatten(audio')
    ensures Inv(EMPTY)
    ensures Playout.Run(EMPTY, Expand(pre + Chunks(audio) + post))
         == Playout.Run(EMPTY, Expand(pre + Chunks(audio') + post))
  {
    EmptyInv();
    OneChunkInstead(pre, audio);
    OneChunkInstead(pre, audio');
    SameRunConcat(pre + Chunks(audio), pre + [Audio(Flatten(audio))], post);
    SameRunConcat(pre + Chunks(audio'), pre + [Audio(Flatten(audio))], post);
    hide Expand, Ticks, Playout.Run, Inv, EMPTY;
  }

  /** Two input sequences that differ only in how audio was cut put the same packets on the wire. */
  lemma ChunkingNeverReachesTheWire(st: Rtp.Sender, conf: Rtp.Settings, ins: seq<Input>, ins': seq<Input>)
    requires Merge(ins) == Merge(ins')
    ensures Inv(EMPTY)
    ensures Rtp.SendAll(st, conf, PadAll(Playout.Run(EMPTY, Expand(ins)).parts))
         == Rtp.SendAll(st, conf, PadAll(Playout.Run(EMPTY, Expand(ins')).parts))
    ensures Playout.Run(EMPTY, Expand(ins)) == Playout.Run(EMPTY, Expand(ins'))
  {
    MergedRun(ins);
    MergedRun(ins');
  }
}
