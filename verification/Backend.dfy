/**
 What each kind of backend message does, from the receive loop of internal/websocket/stream.go to the
 frames of the outbound writer of internal/call/call.go.
 */
module Backend {
  import opened Common
  import opened Relay
  import C = Call
  import I = Interrupts
  import Playout
  import Wire

  // ---- which messages end the loop -------------------------------------------------------

  /** Audio, a text of an unknown type, a transcript, the end of a turn or a barge-in. */
  predicate Ordinary(m: Message) {
    match m
    case Binary(_) => true
    case Text(Unknown) => true
    case Text(Says(UserTranscript(_))) => true
    case Text(Says(BotTranscript(_))) => true
    case Text(Says(TurnComplete)) => true
    case Text(Says(BargeIn)) => true
    case _ => false
  }

  /** How the stream is over after any other message whose event is taken. */
  function Ending(m: Message): Outcome
    requires !Ordinary(m)
  {
    match m
    case Text(Says(signal)) => Ended(signal)
    case Text(Malformed) => BadText
    case Text(_) => Outcome.BackendError
    case Unsupported => BadFrame
    case _ => ReadError
  }

  lemma ExitByKind(c: Conversion, before: seq<byte>, m: Message)
    ensures ExitOf(c, before, m, Taken) == if Ordinary(m) then Reading else Finished(Ending(m))
  {
    hide EventsOf;
  }

  /** The first message that is not ordinary ends the loop, and says how; with none, the loop reads on. */
  lemma FirstOtherEnds(c: Conversion, ms: seq<Message>, deliver: nat -> Delivery, read: nat,
                       events: seq<Event>, exit: Exit)
    requires HasRead(c, ms, deliver, read, events, exit) && (exit == Reading ==> read == |ms|)
    requires forall i :: 0 <= i < |ms| ==> deliver(i) == Taken
    ensures forall i :: 0 <= i < read - 1 ==> Ordinary(ms[i])
    ensures exit == Reading <==> forall i :: 0 <= i < |ms| ==> Ordinary(ms[i])
    ensures exit != Reading ==> read > 0 && !Ordinary(ms[read - 1]) && exit == Finished(Ending(ms[read - 1]))
  {
    hide Emitted, ExitOf, Ordinary, Ending;
    forall i | 0 <= i < |ms|
      ensures ExitAt(c, ms, deliver, i) == if Ordinary(ms[i]) then Reading else Finished(Ending(ms[i]))
    {
      ExitByKind(c, Heard(ms[..i]), ms[i]);
    }
    hide ExitAt;
    if exit == Reading && read > 0 {
      assert ExitAt(c, ms, deliver, read - 1) == Reading;
    }
  }

  /**
   When an event is not taken: audio ends the loop without a word, a signal if the context is the
   reason, and the backend's own endings anyway, as a clean end; everything else is as if it was taken.
   */
  lemma RefusedEvents(c: Conversion, before: seq<byte>, m: Message, cancelled: bool)
    ensures var exit, more := ExitOf(c, before, m, Refused(cancelled)), Convert(c, before + DataOf(m));
      match m {
        case Binary(_) => exit == if c != PassThrough && more == Convert(c, before) then Reading else Gone
        case Text(Says(_)) =>
          exit == if cancelled then Finished(ContextError) else if Ordinary(m) then Reading else Finished(Clean)
        case _ => exit == ExitOf(c, before, m, Taken)
      }
  {
    GainIsAdded(c, before, DataOf(m), []);
    hide Convert, Gain;
    if Gain(c, before, DataOf(m)) != [] {
      assert |Convert(c, before + DataOf(m))| > |Convert(c, before)|;
    } else {
      assert Convert(c, before) + [] == Convert(c, before);
    }
  }

  // ---- what the call makes of an ending --------------------------------------------------

  /** How the relay loop of the call sees a stream that has finished. */
  function SeenEnd(outcome: Outcome): C.Leave {
    match outcome
    case Ended(EndSession) => C.StreamTyped(C.AgentEnded)
    case Ended(Transfer) => C.StreamTyped(C.Transfer)
    case Ended(GoAway) => C.StreamTyped(C.BackendError)
    case _ => C.StreamOther
  }

  /** The reason for which receiveBackend stops on an event, if it does. */
  function StopsOn(e: Event): C.EndReason {
    match e
    case Notice(EndSession) => C.AgentEnded
    case Notice(Transfer) => C.Transfer
    case Notice(GoAway) => C.BackendError
    case _ => C.NoReason
  }

  /** The end of the stream and the event before it give the call one and the same reason, or neither does. */
  ghost predicate OneReason(events: seq<Event>, outcome: Outcome) {
    && (forall i :: 0 <= i < |events| - 1 ==> StopsOn(events[i]) == C.NoReason)
    && (SeenEnd(outcome) == C.StreamOther <==> events == [] || StopsOn(events[|events| - 1]) == C.NoReason)
    && (SeenEnd(outcome) != C.StreamOther ==>
          && C.Reportable(StopsOn(events[|events| - 1]))
          && SeenEnd(outcome) == C.StreamTyped(StopsOn(events[|events| - 1])))
  }

  /**
   Over every run of messages and refusals: whichever the call learns of first, the last event or the
   end of the stream, the reason is the same; without a transfer, end of session or go-away the end
   is untyped and no event stops the call.
   */
  lemma EventAndEndAgree(c: Conversion, ms: seq<Message>, deliver: nat -> Delivery, read: nat,
                         events: seq<Event>, outcome: Outcome)
    requires HasRead(c, ms, deliver, read, events, Finished(outcome))
    ensures OneReason(events, outcome)
  {
    hide HasRead, Emitted;
    forall e: Event
      ensures StopsOn(e) != C.NoReason <==> IsEnding(e)
    {
    }
    EndingIsLast(c, ms, deliver, read, events, Finished(outcome), if outcome.Ended? then outcome.on else GoAway);
    if events != [] && events[|events| - 1].Notice? {
      EndingIsLast(c, ms, deliver, read, events, Finished(outcome), events[|events| - 1].signal);
    }
  }

  /** What is logged of each. */
  lemma LoggedEnding(signal: Signal)
    ensures EndsStream(signal) <==> StopsOn(Notice(signal)) != C.NoReason
    ensures signal == Transfer ==> C.HangupReason(StopsOn(Notice(signal))) == "TRANSFERRED"
    ensures signal == EndSession ==> C.HangupReason(StopsOn(Notice(signal))) == "AGENT_ENDED"
    ensures signal == GoAway ==> C.HangupReason(StopsOn(Notice(signal))) == "BACKEND_ERROR"
  {
  }

  // ---- what is handed on -----------------------------------------------------------------

  /** The signals among the events. */
  function Notices(events: seq<Event>): seq<Signal> {
    if events == [] then []
    else Notices(events[..|events| - 1]) + match events[|events| - 1] { case Notice(signal) => [signal] case _ => [] }
  }

  /** The signals among the messages. */
  function Signals(ms: seq<Message>): seq<Signal> {
    if ms == [] then []
    else Signals(ms[..|ms| - 1]) + match ms[|ms| - 1] { case Text(Says(signal)) => [signal] case _ => [] }
  }

  lemma NoticesSnoc(events: seq<Event>, more: seq<Event>)
    requires |more| <= 1
    ensures Notices(events + more) == Notices(events) + if more != [] && more[0].Notice? then [more[0].signal] else []
  {
    if more == [] {
      assert events + more == events;
    } else {
      assert (events + more)[..|events|] == events;
    }
  }

  /** Every signal the backend sends is handed on once, in order, and nothing else is. */
  lemma {:induction false} SignalsAreHandedOn(c: Conversion, ms: seq<Message>, deliver: nat -> Delivery, n: nat)
    requires n <= |ms| && forall i :: 0 <= i < n ==> deliver(i) == Taken
    ensures Notices(Emitted(c, ms[..n], deliver)) == Signals(ms[..n])
  {
    if n == 0 {
    } else {
      var i := n - 1;
      hide Emitted, EventsOf, Heard;
      SignalsAreHandedOn(c, ms, deliver, i);
      NextMessage(c, ms, deliver, i);
      TakeOne(ms, i);
      NoticeOf(c, Heard(ms[..i]), ms[i]);
      NoticesSnoc(Emitted(c, ms[..i], deliver), EventsOf(c, Heard(ms[..i]), ms[i]));
      hide Notices;
    }
  }

  lemma NoticeOf(c: Conversion, before: seq<byte>, m: Message)
    ensures var more := EventsOf(c, before, m);
      |more| <= 1 && (if more != [] && more[0].Notice? then [more[0].signal] else [])
                     == match m { case Text(Says(signal)) => [signal] case _ => [] }
  {
    hide Gain;
  }

  /** The audio of a run of audio messages is their bytes. */
  lemma {:induction false} HeardIsFlatten(chunks: seq<seq<byte>>)
    ensures Heard(seq(|chunks|, i requires 0 <= i < |chunks| => Binary(chunks[i]))) == Flatten(chunks)
    decreases |chunks|
  {
    var ms := seq(|chunks|, i requires 0 <= i < |chunks| => Binary(chunks[i]));
    if chunks == [] {
    } else {
      var n := |chunks| - 1;
      HeardIsFlatten(chunks[..n]);
      FlattenTake(chunks, n);
      assert chunks[..n + 1] == chunks;
      assert ms[..n] == seq(n, i requires 0 <= i < n => Binary(chunks[..n][i]));
      hide Flatten;
    }
  }

  // ---- what the caller hears of it -------------------------------------------------------

  function Said(signal: Signal): Happening {
    Received(Text(Says(signal)), Taken)
  }

  /** A barge-in or a transfer empties the writer's buffer on the spot. */
  lemma InterruptingSignal(c: Conversion, hs: seq<Happening>, signal: Signal)
    requires StillReading(c, hs) && (signal == BargeIn || signal == Transfer)
    ensures var before, after := I.LogOf(Handed(c, hs)), I.LogOf(Handed(c, hs + [Said(signal)]));
      && after.state == Playout.Buffer([], false, true)
      && after.parts == before.parts && after.mark == |before.parts|
      && after.offered == before.offered
  {
    hide *;
    BargeInIsHanded(c, hs, signal);
    I.BargeInClears(Handed(c, hs));
  }

  lemma BargeInIsHanded(c: Conversion, hs: seq<Happening>, signal: Signal)
    requires signal == BargeIn || signal == Transfer
    ensures StillReading(c, hs) ==> Handed(c, hs + [Said(signal)]) == Handed(c, hs) + [Wire.BargeIn]
  {
    hide StillReading, Handed, Heard, Messages;
    Append(c, hs, Said(signal));
    CommandOfOne(Notice(signal));
  }

  lemma CommandOfOne(e: Event)
    ensures Commands([e]) == CommandOf(e)
  {
    assert [e][..0] == [];
  }

  /** Any other signal leaves the writer as it was. */
  lemma QuietSignal(c: Conversion, hs: seq<Happening>, signal: Signal)
    requires signal.UserTranscript? || signal.BotTranscript? || signal == TurnComplete || signal == EndSession
          || signal == GoAway
    ensures Handed(c, hs + [Said(signal)]) == Handed(c, hs)
  {
    var ins := Handed(c, hs);
    hide *;
    Append(c, hs, Said(signal));
    NoCommand(c, Heard(Messages(hs)), StillReading(c, hs), signal);
    assert ins + [] == ins;
  }

  lemma NoCommand(c: Conversion, before: seq<byte>, reading: bool, signal: Signal)
    requires signal.UserTranscript? || signal.BotTranscript? || signal == TurnComplete || signal == EndSession
          || signal == GoAway
    ensures InputsOf(c, before, reading, Said(signal)) == []
  {
    CommandOfOne(Notice(signal));
  }

  /** Audio that is taken is offered to the writer as it comes out of the conversion, none of it lost on the way. */
  lemma AudioSignal(c: Conversion, hs: seq<Happening>, data: seq<byte>)
    requires StillReading(c, hs)
    ensures var heard := Heard(Messages(hs));
      I.Sound(Handed(c, hs + [Sounding(data)])) == I.Sound(Handed(c, hs)) + Gain(c, heard, data)
  {
    Append(c, hs, Sounding(data));
    var before := Heard(Messages(hs));
    hide StillReading, Handed, Heard, Messages, Gain;
    assert InputsOf(c, before, true, Sounding(data)) == Commands(EventsOf(c, before, Binary(data)));
    if EventsOf(c, before, Binary(data)) != [] {
      CommandOfOne(Audio(Gain(c, before, data)));
      I.SoundSnoc(Handed(c, hs), Wire.Audio(Gain(c, before, data)));
    } else {
      assert Handed(c, hs) + [] == Handed(c, hs);
      assert I.Sound(Handed(c, hs)) + [] == I.Sound(Handed(c, hs));
    }
  }

  /** Nothing more of the conversation reaches the writer once the loop has ended: only the clock goes on. */
  lemma AfterTheEnd(c: Conversion, hs: seq<Happening>, h: Happening)
    requires !StillReading(c, hs)
    ensures Handed(c, hs + [h]) == Handed(c, hs) + if h.Ticked? then [Wire.Tick(h.now)] else []
    ensures !StillReading(c, hs + [h])
  {
    Append(c, hs, h);
    hide StillReading, Handed, Heard, Messages;
  }

  /** While reading, a tick reaches the writer as it is, and ends nothing. */
  lemma ClockGoesOn(c: Conversion, hs: seq<Happening>, now: int)
    ensures Handed(c, hs + [Ticked(now)]) == Handed(c, hs) + [Wire.Tick(now)]
    ensures StillReading(c, hs + [Ticked(now)]) == StillReading(c, hs)
  {
    Append(c, hs, Ticked(now));
    hide StillReading, Handed, Heard, Messages;
  }

  /** The audio of a run in which every event is taken, as far as the loop reads. */
  ghost predicate AllTaken(hs: seq<Happening>) {
    forall h :: h in hs && h.Received? ==> h.delivery == Taken
  }

  /** Until the loop ends, the writer is offered the conversion of all the backend's audio, and no more. */
  lemma {:induction false} AllAudioIsOffered(c: Conversion, hs: seq<Happening>)
    requires AllTaken(hs)
    ensures StillReading(c, hs) ==> I.Sound(Handed(c, hs)) == Convert(c, Heard(Messages(hs)))
    decreases |hs|
  {
    if hs == [] {
      ConvertGrows(c, [], []);
    } else if StillReading(c, hs) {
      var init, h := hs[..|hs| - 1], hs[|hs| - 1];
      SplitLast([], hs);
      assert h in hs && forall x :: x in init ==> x in hs;
      AllAudioIsOffered(c, init);
      Append(c, init, h);
      hide AllTaken, StillReading, Handed, Messages, Heard, Convert, Gain;
      OfferedOneMore(c, init, h);
    }
  }

  lemma OfferedOneMore(c: Conversion, hs: seq<Happening>, h: Happening)
    requires StillReading(c, hs) && (h.Received? ==> h.delivery == Taken)
    requires I.Sound(Handed(c, hs)) == Convert(c, Heard(Messages(hs)))
    ensures I.Sound(Handed(c, hs + [h])) == Convert(c, Heard(Messages(hs + [h])))
  {
    var heard := Heard(Messages(hs));
    Append(c, hs, h);
    hide StillReading, Handed, Messages, Heard, Convert, Gain, I.Sound;
    if h.Received? && h.message.Binary? {
      AudioSignal(c, hs, h.message.data);
      GainIsAdded(c, heard, h.message.data, []);
    } else if h.Ticked? {
      I.SoundSnoc(Handed(c, hs), Wire.Tick(h.now));
      assert heard + [] == heard && I.Sound(Handed(c, hs)) + [] == I.Sound(Handed(c, hs));
    } else {
      SilentMessage(c, Handed(c, hs), heard, h.message);
      assert heard + [] == heard;
    }
  }

  lemma SilentMessage(c: Conversion, ins: seq<Wire.Input>, before: seq<byte>, m: Message)
    requires !m.Binary?
    ensures I.Sound(ins + InputsOf(c, before, true, Received(m, Taken))) == I.Sound(ins)
  {
    hide *;
    NoAudio(c, before, m);
    assert ins + [] == ins;
    I.SoundSnoc(ins, Wire.BargeIn);
    assert I.Sound(ins) + [] == I.Sound(ins);
  }

  lemma NoAudio(c: Conversion, before: seq<byte>, m: Message)
    requires !m.Binary?
    ensures InputsOf(c, before, true, Received(m, Taken)) in {[], [Wire.BargeIn]}
  {
    var events := EventsOf(c, before, m);
    hide Gain;
    if events != [] {
      CommandOfOne(events[0]);
    }
  }

  /** A signal that empties the writer's buffer. */
  predicate Interrupts(h: Happening) {
    h.Received? && (h.message == Text(Says(BargeIn)) || h.message == Text(Says(Transfer)))
  }

  lemma {:induction false} HandedMore(c: Conversion, hs: seq<Happening>, rest: seq<Happening>)
    returns (more: seq<Wire.Input>)
    ensures Handed(c, hs + rest) == Handed(c, hs) + more
    ensures (forall h :: h in rest ==> !Interrupts(h)) ==> Wire.BargeIn !in more
    ensures StillReading(c, hs + rest) ==> StillReading(c, hs)
    decreases |rest|
  {
    if rest == [] {
      assert hs + rest == hs;
      more := [];
    } else {
      hide *;
      var init, h := rest[..|rest| - 1], rest[|rest| - 1];
      more := HandedMore(c, hs, init);
      SplitLast(hs, rest);
      Append(c, hs + init, h);
      var last := InputsOf(c, Heard(Messages(hs + init)), StillReading(c, hs + init), h);
      Playout.Reassociate(Handed(c, hs), more, last);
      assert h in rest && forall x :: x in init ==> x in rest;
      NoBargeIn(c, Heard(Messages(hs + init)), StillReading(c, hs + init), h);
      more := more + last;
    }
  }

  lemma NoBargeIn(c: Conversion, before: seq<byte>, reading: bool, h: Happening)
    ensures !Interrupts(h) ==> Wire.BargeIn !in InputsOf(c, before, reading, h)
  {
    if h.Received? {
      var events := EventsOf(c, before, h.message);
      if events != [] {
        CommandOfOne(events[0]);
      }
    }
    hide Gain;
  }

  /**
   What the caller hears of the backend after a barge-in, wherever it falls among audio, other
   signals and ticks: the frames that go out from then on, followed by what is buffered, are the
   conversion of exactly the audio received after it, unless the buffer overflowed.
   */
  lemma HeardAfterBargeIn(c: Conversion, hs: seq<Happening>, rest: seq<Happening>)
    requires AllTaken(hs) && AllTaken(rest) && StillReading(c, hs + [Said(BargeIn)] + rest)
    requires forall h :: h in rest ==> !Interrupts(h)
    ensures var before, after := I.LogOf(Handed(c, hs)), I.LogOf(Handed(c, hs + [Said(BargeIn)] + rest));
      && before.parts <= after.parts
      && (after.dropped == before.dropped ==>
            Convert(c, Heard(Messages(hs))) + (Flatten(after.parts[|before.parts|..]) + after.state.queue)
              == Convert(c, Heard(Messages(hs + [Said(BargeIn)] + rest))))
  {
    var mid, all := hs + [Said(BargeIn)], hs + [Said(BargeIn)] + rest;
    forall h | h in all && h.Received?
      ensures h.delivery == Taken
    {
    }
    assert AllTaken(all);
    hide *;
    var more := HandedMore(c, mid, rest);
    var one := HandedMore(c, hs, [Said(BargeIn)]);
    BargeInIsHanded(c, hs, BargeIn);
    AllAudioIsOffered(c, hs);
    AllAudioIsOffered(c, all);
    I.HeardAfterBargeIn(Handed(c, hs), more);
    I.BargeInClears(Handed(c, hs));
    I.NothingDropped(Handed(c, mid), more);
    I.SoundConcat(Handed(c, mid), more);
    I.SoundSnoc(Handed(c, hs), Wire.BargeIn);
    assert I.Sound(Handed(c, hs)) + [] == I.Sound(Handed(c, hs));
  }

  // ---- message cuts ----------------------------------------------------------------------

  function Soundings(chunks: seq<seq<byte>>): seq<Happening> {
    if chunks == [] then [] else Soundings(chunks[..|chunks| - 1]) + [Sounding(chunks[|chunks| - 1])]
  }

  lemma EmptyMessage(c: Conversion, pre: seq<Happening>)
    ensures Alike(c, pre, pre + [Sounding([])])
  {
    var before := Heard(Messages(pre));
    Append(c, pre, Sounding([]));
    SoundingReads(c, Handed(c, pre), before, []);
    hide Heard, Messages, Handed, InputsOf, StillReading, KeepsReading, Wire.SameRun;
    NoSound(c, Handed(c, pre), before);
    assert before + [] == before;
  }

  lemma NoSound(c: Conversion, pre: seq<Wire.Input>, before: seq<byte>)
    ensures Wire.SameRun(pre, pre + InputsOf(c, before, true, Sounding([])))
  {
    hide InputsOf, Wire.SameRun, Gain;
    AudioIsChunk(c, pre, before, []);
    GainIsAdded(c, before, [], []);
    Wire.EmptyChunk(pre);
    Wire.SameRunSymmetric(pre + [Wire.Audio([])], pre);
    Wire.SameRunSymmetric(pre + InputsOf(c, before, true, Sounding([])), pre + [Wire.Audio([])]);
    Wire.SameRunTransitive(pre, pre + [Wire.Audio([])], pre + InputsOf(c, before, true, Sounding([])));
  }

  lemma {:induction false} OneMessageInstead(c: Conversion, pre: seq<Happening>, chunks: seq<seq<byte>>)
    ensures Alike(c, pre + [Sounding(Flatten(chunks))], pre + Soundings(chunks))
    decreases |chunks|
  {
    if chunks == [] {
      assert pre + Soundings(chunks) == pre;
      hide Alike;
      EmptyMessage(c, pre);
      AlikeSymmetric(c, pre, pre + [Sounding([])]);
    } else {
      hide *;
      var init, last := chunks[..|chunks| - 1], chunks[|chunks| - 1];
      OneMessageInstead(c, pre, init);
      AlikeAppend(c, pre + [Sounding(Flatten(init))], pre + Soundings(init), Sounding(last));
      JoinedAlike(c, pre, Flatten(init), last);
      LastSounding(pre, chunks);
      AlikeTransitive(c, pre + [Sounding(Flatten(chunks))], pre + [Sounding(Flatten(init))] + [Sounding(last)],
                      pre + Soundings(chunks));
    }
  }

  lemma LastSounding(pre: seq<Happening>, chunks: seq<seq<byte>>)
    requires chunks != []
    ensures Flatten(chunks) == Flatten(chunks[..|chunks| - 1]) + chunks[|chunks| - 1]
    ensures pre + Soundings(chunks) == pre + Soundings(chunks[..|chunks| - 1]) + [Sounding(chunks[|chunks| - 1])]
  {
    SplitLast([], chunks);
    FlattenSnoc(chunks[..|chunks| - 1], chunks[|chunks| - 1]);
    Playout.Reassociate(pre, Soundings(chunks[..|chunks| - 1]), [Sounding(chunks[|chunks| - 1])]);
    hide Flatten;
  }

  lemma AlikeSymmetric(c: Conversion, a: seq<Happening>, b: seq<Happening>)
    requires Alike(c, a, b)
    ensures Alike(c, b, a)
  {
    hide Heard, Messages, Handed, StillReading, Wire.SameRun;
    Wire.SameRunSymmetric(Handed(c, a), Handed(c, b));
  }

  lemma {:induction false} AlikeConcat(c: Conversion, a: seq<Happening>, b: seq<Happening>, post: seq<Happening>)
    requires Alike(c, a, b)
    ensures Alike(c, a + post, b + post)
    decreases |post|
  {
    hide Alike;
    if post == [] {
      assert a + post == a && b + post == b;
    } else {
      var n := |post| - 1;
      AlikeConcat(c, a, b, post[..n]);
      AlikeAppend(c, a + post[..n], b + post[..n], post[n]);
      SplitLast(a, post);
      SplitLast(b, post);
    }
  }

  /** The same audio in other messages, anywhere in a conversation, leaves every frame and the buffer as they were. */
  lemma SameAudioSameFrames(c: Conversion, pre: seq<Happening>, chunks: seq<seq<byte>>, chunks': seq<seq<byte>>,
                            post: seq<Happening>)
    requires Flatten(chunks) == Flatten(chunks')
    ensures I.LogOf(Handed(c, pre + Soundings(chunks) + post)) == I.LogOf(Handed(c, pre + Soundings(chunks') + post))
  {
    var one := pre + [Sounding(Flatten(chunks))];
    OneMessageInstead(c, pre, chunks);
    OneMessageInstead(c, pre, chunks');
    hide Alike;
    AlikeConcat(c, one, pre + Soundings(chunks), post);
    AlikeConcat(c, one, pre + Soundings(chunks'), post);
    AlikeLogs(c, one + post, pre + Soundings(chunks) + post);
    AlikeLogs(c, one + post, pre + Soundings(chunks') + post);
  }

  lemma AlikeLogs(c: Conversion, a: seq<Happening>, b: seq<Happening>)
    requires Alike(c, a, b)
    ensures I.LogOf(Handed(c, a)) == I.LogOf(Handed(c, b))
  {
    hide Heard, Messages, Handed, StillReading, Wire.Expand, Wire.Ticks, Playout.Run;
  }

  // ---- caller to backend -----------------------------------------------------------------

  /** Payload i adds something to the converted stream. */
  ghost predicate Adds(c: Conversion, payloads: seq<seq<byte>>, i: nat)
    requires i < |payloads|
  {
    Convert(c, Flatten(payloads[..i + 1])) != Convert(c, Flatten(payloads[..i]))
  }

  lemma AddsIsGain(c: Conversion, payloads: seq<seq<byte>>, i: nat)
    requires i < |payloads|
    ensures Adds(c, payloads, i) <==> Gain(c, Flatten(payloads[..i]), payloads[i]) != []
  {
    var before := Flatten(payloads[..i]);
    FlattenTake(payloads, i);
    GainIsAdded(c, before, payloads[i], []);
    hide Flatten, Gain, Convert;
    if Gain(c, before, payloads[i]) != [] {
      assert |Convert(c, before + payloads[i])| > |Convert(c, before)|;
    } else {
      assert Convert(c, before) + [] == Convert(c, before);
    }
  }

  /** The send loop fails exactly if some write fails, and then stops at the first that does. */
  lemma FirstFailureStops(c: Conversion, payloads: seq<seq<byte>>, fails: nat -> bool, read: nat,
                          writes: seq<seq<byte>>, failed: bool)
    requires HasWritten(c, payloads, fails, read, writes, failed) && (!failed ==> read == |payloads|)
    ensures forall i :: 0 <= i < read - 1 ==> !(fails(i) && Adds(c, payloads, i))
    ensures failed ==> 0 < read <= |payloads| && fails(read - 1) && Adds(c, payloads, read - 1)
    ensures failed <==> exists i :: 0 <= i < |payloads| && fails(i) && Adds(c, payloads, i)
  {
    hide Flatten, Gain, Convert, Adds, Written;
    forall i | 0 <= i < |payloads|
      ensures WriteFails(c, payloads, fails, i) <==> fails(i) && Adds(c, payloads, i)
    {
      AddsIsGain(c, payloads, i);
    }
    hide WriteFails;
  }
}
