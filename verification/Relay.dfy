/**
 The WebSocket loops of internal/websocket/stream.go that drive the transcoders, and what their
 audio becomes once the outbound writer of internal/call/call.go has handled it.
 */
module Relay {
  import opened Common
  import opened Transcoder
  import Playout
  import Wire

  type Rate = hz: int | hz > 0 witness 8000

  /** What audio goes through at the WebSocket boundary; without a transcoder it passes as it is. */
  datatype Conversion =
    | PassThrough
    | FromBackend(coeffs: Coefficients, hz: Rate)
    | ToBackend(coeffs: Coefficients, hz: Rate)

  ghost function Convert(c: Conversion, stream: seq<byte>): seq<byte> {
    match c
    case PassThrough => stream
    case FromBackend(coeffs, hz) => OutputSpec(coeffs, hz, stream)
    case ToBackend(coeffs, hz) => InputSpec(coeffs, hz, stream)
  }

  lemma ConvertGrows(c: Conversion, before: seq<byte>, data: seq<byte>)
    ensures Convert(c, before) <= Convert(c, before + data)
    ensures Convert(c, []) == []
  {
    hide OutputSpec, InputSpec;
    if c != PassThrough {
      SpecsGrow(c.coeffs, c.hz, before, data);
      SpecsOfNothing(c.coeffs, c.hz);
    }
  }

  /** What data, after before, adds to the converted stream. */
  ghost function Gain(c: Conversion, before: seq<byte>, data: seq<byte>): seq<byte> {
    ConvertGrows(c, before, data);
    Convert(c, before + data)[|Convert(c, before)|..]
  }

  lemma GainIsAdded(c: Conversion, before: seq<byte>, data: seq<byte>, out: seq<byte>)
    ensures Emits([], out, Convert(c, before), Convert(c, before + data)) <==> out == Gain(c, before, data)
    ensures Convert(c, before) + Gain(c, before, data) == Convert(c, before + data)
    ensures data == [] ==> Gain(c, before, data) == []
  {
    ConvertGrows(c, before, data);
    EmitsIsSuffix(Gain(c, before, data), Convert(c, before), Convert(c, before + data));
    assert data == [] ==> before + data == before;
    hide Convert;
  }

  lemma GainSplits(c: Conversion, before: seq<byte>, a: seq<byte>, b: seq<byte>)
    ensures Gain(c, before, a + b) == Gain(c, before, a) + Gain(c, before + a, b)
  {
    GainIsAdded(c, before, a, []);
    GainIsAdded(c, before + a, b, []);
    GainIsAdded(c, before, a + b, []);
    Playout.Reassociate(before, a, b);
    hide Convert, Gain;
    assert Convert(c, before) + Gain(c, before, a + b)
        == Convert(c, before) + (Gain(c, before, a) + Gain(c, before + a, b));
    SameTail(Convert(c, before), Gain(c, before, a + b), Gain(c, before, a) + Gain(c, before + a, b));
  }

  lemma SameTail<T>(x: seq<T>, y: seq<T>, z: seq<T>)
    requires x + y == x + z
    ensures y == z
  {
    assert (x + y)[|x|..] == y && (x + z)[|x|..] == z;
  }

  // ---- backend to caller -----------------------------------------------------------------

  /** What the backend tells the relay besides audio. */
  datatype Signal =
    | UserTranscript(text: string)
    | BotTranscript(delta: string)
    | TurnComplete
    | BargeIn
    | Transfer
    | EndSession
    | GoAway

  /** A text message: undecodable, of a type the relay ignores, an error or second ready, or a signal. */
  datatype Meaning = Malformed | Unknown | Fatal | Says(signal: Signal)

  /** What one read of the socket returns. */
  datatype Message = Binary(data: seq<byte>) | Text(meaning: Meaning) | Unsupported | Failed

  datatype Event = Audio(audio: seq<byte>) | Notice(signal: Signal)

  /** Whether the event of a message is taken; if not, whether the context is the reason. */
  datatype Delivery = Taken | Refused(cancelled: bool)

  datatype Outcome = Clean | ReadError | BadText | Ended(on: Signal) | BackendError | BadFrame | ContextError

  /** Still reading, gone without a word, or the stream finished with an outcome. */
  datatype Exit = Reading | Gone | Finished(outcome: Outcome)

  predicate EndsStream(s: Signal) {
    s.Transfer? || s.EndSession? || s.GoAway?
  }

  function DataOf(m: Message): seq<byte> {
    if m.Binary? then m.data else []
  }

  /** The bytes of the audio messages. */
  function Heard(ms: seq<Message>): seq<byte> {
    if ms == [] then []
    else Heard(ms[..|ms| - 1]) + DataOf(ms[|ms| - 1])
  }

  /** The events of a message that comes after the audio bytes before. */
  ghost function EventsOf(c: Conversion, before: seq<byte>, m: Message): seq<Event> {
    match m
    case Binary(data) =>
      if c != PassThrough && Gain(c, before, data) == [] then [] else [Audio(Gain(c, before, data))]
    case Text(Says(signal)) => [Notice(signal)]
    case _ => []
  }

  /** How the loop stands after that message. */
  ghost function ExitOf(c: Conversion, before: seq<byte>, m: Message, d: Delivery): Exit {
    match m
    case Binary(_) => if d == Taken || EventsOf(c, before, m) == [] then Reading else Gone
    case Text(Says(signal)) =>
      if d == Refused(true) then Finished(ContextError)
      else if !EndsStream(signal) then Reading
      else Finished(if d == Taken then Ended(signal) else Clean)
    case Text(Unknown) => Reading
    case Text(Malformed) => Finished(BadText)
    case Text(Fatal) => Finished(BackendError)
    case Unsupported => Finished(BadFrame)
    case Failed => Finished(ReadError)
  }

  /** The events taken over a run of messages. */
  ghost function Emitted(c: Conversion, ms: seq<Message>, deliver: nat -> Delivery): seq<Event> {
    if ms == [] then []
    else
      var n := |ms| - 1;
      Emitted(c, ms[..n], deliver) + if deliver(n) == Taken then EventsOf(c, Heard(ms[..n]), ms[n]) else []
  }

  ghost function ExitAt(c: Conversion, ms: seq<Message>, deliver: nat -> Delivery, i: nat): Exit
    requires i < |ms|
  {
    ExitOf(c, Heard(ms[..i]), ms[i], deliver(i))
  }

  /** All audio of the events, in order. */
  function Sound(events: seq<Event>): seq<byte> {
    if events == [] then []
    else Sound(events[..|events| - 1]) + match events[|events| - 1] { case Audio(audio) => audio case _ => [] }
  }

  lemma SoundOfMore(events: seq<Event>, more: seq<Event>)
    requires |more| <= 1
    ensures Sound(events + more) == Sound(events) + if more != [] && more[0].Audio? then more[0].audio else []
  {
    if more == [] {
      assert events + more == events;
    } else {
      assert (events + more)[..|events|] == events;
    }
  }

  lemma TakeOne<T>(s: seq<T>, i: nat)
    requires i < |s|
    ensures s[..i + 1][..i] == s[..i] && s[..i + 1][i] == s[i] && |s[..i + 1]| == i + 1
  {
  }

  lemma NextMessage(c: Conversion, ms: seq<Message>, deliver: nat -> Delivery, i: nat)
    requires i < |ms|
    ensures Emitted(c, ms[..i + 1], deliver) ==
      Emitted(c, ms[..i], deliver) + if deliver(i) == Taken then EventsOf(c, Heard(ms[..i]), ms[i]) else []
    ensures Heard(ms[..i + 1]) == Heard(ms[..i]) + DataOf(ms[i])
  {
    TakeOne(ms, i);
    hide EventsOf;
  }

  /** What one message adds to the audio handed on. */
  lemma SoundOfMessage(c: Conversion, before: seq<byte>, m: Message, d: Delivery, events: seq<Event>)
    requires ExitOf(c, before, m, d) != Gone
    ensures Sound(events + if d == Taken then EventsOf(c, before, m) else [])
         == Sound(events) + Gain(c, before, DataOf(m))
  {
    GainIsAdded(c, before, DataOf(m), []);
    hide Gain;
    SoundOfMore(events, if d == Taken then EventsOf(c, before, m) else []);
    hide Sound;
  }

  /**
   However audio was cut into messages: up to any message, the audio handed on is the conversion of
   the audio received up to it, so that a barge-in or any other signal keeps its place in it.
   */
  lemma {:induction false} SoundSoFar(c: Conversion, ms: seq<Message>, deliver: nat -> Delivery, n: nat)
    requires n <= |ms| && forall i :: 0 <= i < n ==> ExitAt(c, ms, deliver, i) != Gone
    ensures Sound(Emitted(c, ms[..n], deliver)) == Convert(c, Heard(ms[..n]))
  {
    if n == 0 {
      ConvertGrows(c, [], []);
    } else {
      var i := n - 1;
      SoundSoFar(c, ms, deliver, i);
      assert ExitAt(c, ms, deliver, i) != Gone;
      hide Convert, Gain, Heard, Emitted, Sound, EventsOf, ExitOf;
      NextMessage(c, ms, deliver, i);
      GainIsAdded(c, Heard(ms[..i]), DataOf(ms[i]), []);
      SoundOfMessage(c, Heard(ms[..i]), ms[i], deliver(i), Emitted(c, ms[..i], deliver));
    }
  }

  ghost function Outbound(t: OutputTranscoder?): Conversion {
    if t == null || t.inputHz <= 0 then PassThrough else FromBackend(t.resampler.Coeffs(), t.inputHz)
  }

  ghost function Touched(t: OutputTranscoder?): set<object> {
    if t == null then {} else {t, t.decoder, t.resampler} + t.resampler.Parts()
  }

  /** Nothing to say about a missing transcoder; otherwise it has been fed before. */
  ghost predicate Fed(t: OutputTranscoder?, before: seq<byte>)
    reads if t == null then {} else t.Parts()
  {
    t != null ==> t.Valid() && t.stream == before
  }

  method FromSocket(t: OutputTranscoder?, data: seq<byte>, ghost before: seq<byte>) returns (audioBytes: seq<byte>)
    requires Fed(t, before)
    modifies Touched(t)
    ensures Fed(t, before + data) && audioBytes == Gain(Outbound(t), before, data)
  {
    GainIsAdded(Outbound(t), before, data, data);
    if t != null {
      hide OutputSpec, OutputTranscoder.Valid;
      assert t.inputHz > 0;
      audioBytes := t.Transcode(data);
      GainIsAdded(Outbound(t), before, data, audioBytes);
    } else {
      audioBytes := data;
    }
  }

  /** One text message: the signal handed on, if any, and whether the stream ends. */
  method HandleEvent(meaning: Meaning, delivery: Delivery, ghost c: Conversion, ghost before: seq<byte>)
    returns (events: seq<Event>, exit: Exit)
    ensures exit == ExitOf(c, before, Text(meaning), delivery)
    ensures events == if delivery == Taken then EventsOf(c, before, Text(meaning)) else []
  {
    events := [];
    match meaning
    case Malformed => return [], Finished(BadText);
    case Unknown => return [], Reading;
    case Fatal => return [], Finished(BackendError);
    case Says(signal) =>
      if delivery == Taken {
        events := [Notice(signal)];
      }
      if signal.Transfer? || signal.EndSession? || signal.GoAway? {
        if delivery != Taken {
          return events, Finished(if delivery.cancelled then ContextError else Clean);
        }
        return events, Finished(Ended(signal));
      }
      if delivery != Taken && delivery.cancelled {
        return events, Finished(ContextError);
      }
      return events, Reading;
  }

  /** One read of the socket, of whatever type. */
  method HandleMessage(t: OutputTranscoder?, message: Message, delivery: Delivery, ghost before: seq<byte>)
    returns (events: seq<Event>, exit: Exit)
    requires Fed(t, before)
    modifies Touched(t)
    ensures Fed(t, before + DataOf(message))
    ensures exit == ExitOf(Outbound(t), before, message, delivery)
    ensures events == if delivery == Taken then EventsOf(Outbound(t), before, message) else []
  {
    assert Outbound(t) == PassThrough <==> t == null;
    assert before + [] == before;
    hide Outbound, Fed, Gain;
    match message
    case Binary(data) =>
      var audioBytes := FromSocket(t, data, before);
      if t != null && |audioBytes| == 0 {
        return [], Reading;
      }
      if delivery != Taken {
        return [], Gone;
      }
      return [Audio(audioBytes)], Reading;
    case Text(meaning) =>
      events, exit := HandleEvent(meaning, delivery, Outbound(t), before);
    case Unsupported => return [], Finished(BadFrame);
    case Failed => return [], Finished(ReadError);
  }

  /**
   After reading so many messages, none of which but the last can have ended the loop: the events
   handed on, and how the loop stands.
   */
  ghost predicate HasRead(c: Conversion, messages: seq<Message>, deliver: nat -> Delivery, read: nat,
                          events: seq<Event>, exit: Exit)
  {
    && read <= |messages|
    && events == Emitted(c, messages[..read], deliver)
    && (forall i :: 0 <= i < read - 1 ==> ExitAt(c, messages, deliver, i) == Reading)
    && exit == if read == 0 then Reading else ExitAt(c, messages, deliver, read - 1)
  }

  lemma ReadNothing(c: Conversion, messages: seq<Message>, deliver: nat -> Delivery)
    ensures HasRead(c, messages, deliver, 0, [], Reading) && Heard(messages[..0]) == []
  {
    assert messages[..0] == [];
  }

  lemma ReadOneMore(c: Conversion, messages: seq<Message>, deliver: nat -> Delivery, read: nat,
                    events: seq<Event>)
    requires read < |messages|
    ensures HasRead(c, messages, deliver, read, events, Reading) ==>
      var before := Heard(messages[..read]);
      var more := if deliver(read) == Taken then EventsOf(c, before, messages[read]) else [];
      HasRead(c, messages, deliver, read + 1, events + more, ExitOf(c, before, messages[read], deliver(read)))
    ensures Heard(messages[..read + 1])
         == Heard(messages[..read]) + DataOf(messages[read])
  {
    hide Emitted, Heard, EventsOf, ExitOf;
    NextMessage(c, messages, deliver, read);
    assert ExitAt(c, messages, deliver, read) == ExitOf(c, Heard(messages[..read]), messages[read], deliver(read));
    hide ExitAt;
    if HasRead(c, messages, deliver, read, events, Reading) {
      assert forall i :: 0 <= i < read ==> ExitAt(c, messages, deliver, i) == Reading;
    }
  }

  /** Unless an audio event was refused, the audio handed on is the conversion of the audio read. */
  lemma ReadSound(c: Conversion, messages: seq<Message>, deliver: nat -> Delivery, read: nat,
                  events: seq<Event>, exit: Exit)
    ensures HasRead(c, messages, deliver, read, events, exit) ==>
      && read <= |messages|
      && (exit != Gone ==> Sound(events) == Convert(c, Heard(messages[..read])))
      && (exit == Gone ==> read > 0 && Sound(events) == Convert(c, Heard(messages[..read - 1])))
  {
    hide Convert, Emitted, Heard, ExitAt;
    if HasRead(c, messages, deliver, read, events, exit) {
      if exit != Gone {
        SoundSoFar(c, messages, deliver, read);
      } else {
        SoundSoFar(c, messages, deliver, read - 1);
        RefusedAudio(c, messages, deliver, read - 1);
      }
    }
  }

  lemma RefusedAudio(c: Conversion, ms: seq<Message>, deliver: nat -> Delivery, i: nat)
    requires i < |ms|
    ensures ExitAt(c, ms, deliver, i) == Gone ==>
      Emitted(c, ms[..i + 1], deliver) == Emitted(c, ms[..i], deliver)
  {
    NextMessage(c, ms, deliver, i);
  }

  /**
   The receive loop over the messages it reads. deliver stands for what the event channel and the
   context do with the event of message i.
   */
  method RecvLoop(t: OutputTranscoder?, messages: seq<Message>, deliver: nat -> Delivery)
    returns (events: seq<Event>, read: nat, exit: Exit)
    requires Fed(t, [])
    modifies Touched(t)
    ensures HasRead(Outbound(t), messages, deliver, read, events, exit)
    ensures Fed(t, Heard(messages[..read])) && (exit == Reading ==> read == |messages|)
    ensures exit != Gone ==> Sound(events) == Convert(Outbound(t), Heard(messages[..read]))
  {
    hide *;
    events, read, exit := [], 0, Reading;
    ReadNothing(Outbound(t), messages, deliver);
    while read < |messages|
      invariant read <= |messages| && exit == Reading && Fed(t, Heard(messages[..read]))
      invariant HasRead(Outbound(t), messages, deliver, read, events, exit)
    {
      var more;
      more, exit := HandleMessage(t, messages[read], deliver(read), Heard(messages[..read]));
      ReadOneMore(Outbound(t), messages, deliver, read, events);
      events := events + more;
      read := read + 1;
      if exit != Reading {
        break;
      }
    }
    ReadSound(Outbound(t), messages, deliver, read, events, exit);
  }

  /** The backend's own word that the stream is over. */
  predicate IsEnding(e: Event) {
    e.Notice? && EndsStream(e.signal)
  }

  lemma MessageEnds(c: Conversion, before: seq<byte>, m: Message, d: Delivery)
    ensures var more := if d == Taken then EventsOf(c, before, m) else [];
      && |more| <= 1
      && (forall g :: ExitOf(c, before, m, d) == Finished(Ended(g)) <==> EndsStream(g) && more == [Notice(g)])
      && (ExitOf(c, before, m, d) == Reading ==> more == [] || !IsEnding(more[0]))
      && (!ExitOf(c, before, m, d).Reading? && more != [] ==> IsEnding(more[0]))
  {
    hide Gain;
  }

  lemma {:induction false} NoEndingYet(c: Conversion, ms: seq<Message>, deliver: nat -> Delivery, n: nat)
    requires n <= |ms| && forall i :: 0 <= i < n ==> ExitAt(c, ms, deliver, i) == Reading
    ensures forall e :: e in Emitted(c, ms[..n], deliver) ==> !IsEnding(e)
  {
    if n == 0 {
    } else {
      var i := n - 1;
      NoEndingYet(c, ms, deliver, i);
      assert ExitAt(c, ms, deliver, i) == Reading;
      NextMessage(c, ms, deliver, i);
      MessageEnds(c, Heard(ms[..i]), ms[i], deliver(i));
      hide Emitted, Heard, EventsOf, ExitOf, IsEnding;
    }
  }

  /** An exit on signal g means g came last; no ending came earlier; any other exit added no event. */
  ghost predicate EndsLast(before: seq<Event>, events: seq<Event>, exit: Exit, g: Signal) {
    && (exit == Finished(Ended(g)) <==> EndsStream(g) && events != [] && events[|events| - 1] == Notice(g))
    && (forall i :: 0 <= i < |events| - 1 ==> !IsEnding(events[i]))
    && (exit != Reading && (events == [] || !IsEnding(events[|events| - 1])) ==> events == before)
  }

  lemma LastOf(before: seq<Event>, more: seq<Event>, exit: Exit, g: Signal)
    requires |more| <= 1 && forall e :: e in before ==> !IsEnding(e)
    requires exit == Finished(Ended(g)) <==> EndsStream(g) && more == [Notice(g)]
    requires exit == Reading && more != [] ==> !IsEnding(more[0])
    requires exit != Reading && more != [] ==> IsEnding(more[0])
    ensures EndsLast(before, before + more, exit, g)
  {
    var events := before + more;
    if more == [] {
      assert events == before;
      if before != [] {
        assert before[|before| - 1] in before;
      }
    } else {
      assert more == [more[0]] && events[|events| - 1] == more[0];
      assert forall i :: 0 <= i < |events| - 1 ==> events[i] == before[i];
    }
  }

  lemma EndingAt(c: Conversion, messages: seq<Message>, deliver: nat -> Delivery, i: nat, g: Signal)
    requires i < |messages| && forall e :: e in Emitted(c, messages[..i], deliver) ==> !IsEnding(e)
    ensures EndsLast(Emitted(c, messages[..i], deliver), Emitted(c, messages[..i + 1], deliver),
                     ExitAt(c, messages, deliver, i), g)
  {
    hide Emitted, Heard, EventsOf, ExitOf, IsEnding, EndsLast;
    NextMessage(c, messages, deliver, i);
    var d, heard := deliver(i), Heard(messages[..i]);
    MessageEnds(c, heard, messages[i], d);
    LastOf(Emitted(c, messages[..i], deliver), if d == Taken then EventsOf(c, heard, messages[i]) else [],
           ExitOf(c, heard, messages[i], d), g);
  }

  /**
   The loop ends on a transfer, an end of the session or a go-away if and only if that is the last
   event handed on; no such event comes earlier; and a message that ends the loop in any other way
   hands nothing on.
   */
  lemma EndingIsLast(c: Conversion, messages: seq<Message>, deliver: nat -> Delivery, read: nat,
                     events: seq<Event>, exit: Exit, g: Signal)
    ensures HasRead(c, messages, deliver, read, events, exit) ==>
      EndsLast(if read == 0 then [] else Emitted(c, messages[..read - 1], deliver), events, exit, g)
  {
    if read == 0 {
      assert messages[..0] == [];
    } else if HasRead(c, messages, deliver, read, events, exit) {
      hide Emitted, ExitAt, IsEnding, EndsLast;
      NoEndingYet(c, messages, deliver, read - 1);
      EndingAt(c, messages, deliver, read - 1, g);
    }
  }

  // ---- caller to backend -----------------------------------------------------------------

  ghost function Inbound(t: InputTranscoder?): Conversion {
    if t == null || t.outputHz <= 0 then PassThrough else ToBackend(t.resampler.Coeffs(), t.outputHz)
  }

  ghost function TouchedIn(t: InputTranscoder?): set<object> {
    if t == null then {} else {t, t.resampler} + t.resampler.Parts()
  }

  ghost predicate FedIn(t: InputTranscoder?, before: seq<byte>)
    reads if t == null then {} else t.Parts()
  {
    t != null ==> t.Valid() && t.stream == before
  }

  function UnlessEmpty<T>(data: seq<T>): seq<seq<T>> {
    if data == [] then [] else [data]
  }

  lemma FlattenUnlessEmpty<T>(w: seq<seq<T>>, data: seq<T>)
    ensures Flatten(w + UnlessEmpty(data)) == Flatten(w) + data
    ensures [] !in w ==> [] !in w + UnlessEmpty(data)
  {
    FlattenSnoc(w, data);
    hide Flatten;
    if data == [] {
      assert w + UnlessEmpty(data) == w && Flatten(w) + data == Flatten(w);
    }
  }

  /** The binary messages a run of payloads becomes: one for each payload that adds something. */
  ghost function Written(c: Conversion, payloads: seq<seq<byte>>): seq<seq<byte>> {
    if payloads == [] then []
    else
      var n := |payloads| - 1;
      Written(c, payloads[..n]) + UnlessEmpty(Gain(c, Flatten(payloads[..n]), payloads[n]))
  }

  /** Whatever the payload sizes, the messages add up to the conversion of all payloads, none empty. */
  lemma {:induction false} WrittenIsConverted(c: Conversion, payloads: seq<seq<byte>>)
    ensures Flatten(Written(c, payloads)) == Convert(c, Flatten(payloads)) && [] !in Written(c, payloads)
    decreases |payloads|
  {
    if payloads == [] {
      ConvertGrows(c, [], []);
    } else {
      var n := |payloads| - 1;
      WrittenIsConverted(c, payloads[..n]);
      FlattenTake(payloads, n);
      assert payloads[..n + 1] == payloads;
      hide Convert, Gain, Flatten, UnlessEmpty;
      GainIsAdded(c, Flatten(payloads[..n]), payloads[n], []);
      FlattenUnlessEmpty(Written(c, payloads[..n]), Gain(c, Flatten(payloads[..n]), payloads[n]));
    }
  }

  lemma NextPayload(c: Conversion, payloads: seq<seq<byte>>, i: nat)
    requires i < |payloads|
    ensures Written(c, payloads[..i + 1])
         == Written(c, payloads[..i]) + UnlessEmpty(Gain(c, Flatten(payloads[..i]), payloads[i]))
    ensures Flatten(payloads[..i + 1]) == Flatten(payloads[..i]) + payloads[i]
  {
    TakeOne(payloads, i);
    FlattenTake(payloads, i);
    hide Gain, Flatten, UnlessEmpty;
  }

  /** What of a payload is sent on. */
  method ToSocket(t: InputTranscoder?, payload: seq<byte>, ghost before: seq<byte>) returns (data: seq<byte>)
    requires FedIn(t, before)
    modifies TouchedIn(t)
    ensures FedIn(t, before + payload) && data == Gain(Inbound(t), before, payload)
  {
    GainIsAdded(Inbound(t), before, payload, payload);
    if |payload| == 0 {
      assert before + payload == before;
      return [];
    }
    if t != null {
      hide InputSpec, InputTranscoder.Valid;
      assert t.outputHz > 0;
      data := t.Transcode(payload);
      GainIsAdded(Inbound(t), before, payload, data);
    } else {
      data := payload;
    }
  }

  /** Payload i becomes a message, and writing it fails. */
  ghost predicate WriteFails(c: Conversion, payloads: seq<seq<byte>>, fails: nat -> bool, i: nat)
    requires i < |payloads|
  {
    fails(i) && Gain(c, Flatten(payloads[..i]), payloads[i]) != []
  }

  /** After so many payloads: the messages written, no write but the last having failed. */
  ghost predicate HasWritten(c: Conversion, payloads: seq<seq<byte>>, fails: nat -> bool, read: nat,
                             writes: seq<seq<byte>>, failed: bool)
  {
    && read <= |payloads|
    && writes == Written(c, payloads[..read])
    && (forall i :: 0 <= i < read - 1 ==> !WriteFails(c, payloads, fails, i))
    && (failed <==> read > 0 && WriteFails(c, payloads, fails, read - 1))
  }

  lemma WrittenNothing(c: Conversion, payloads: seq<seq<byte>>, fails: nat -> bool)
    ensures HasWritten(c, payloads, fails, 0, [], false) && Flatten(payloads[..0]) == []
  {
    assert payloads[..0] == [];
  }

  lemma WrittenOneMore(c: Conversion, payloads: seq<seq<byte>>, fails: nat -> bool, read: nat,
                       writes: seq<seq<byte>>)
    requires read < |payloads|
    ensures HasWritten(c, payloads, fails, read, writes, false) ==>
      var data := Gain(c, Flatten(payloads[..read]), payloads[read]);
      HasWritten(c, payloads, fails, read + 1, writes + UnlessEmpty(data), data != [] && fails(read))
    ensures Flatten(payloads[..read + 1]) == Flatten(payloads[..read]) + payloads[read]
  {
    hide Written, Flatten, Gain, UnlessEmpty, Convert;
    NextPayload(c, payloads, read);
    WriteFailsIs(c, payloads, fails, read);
    hide WriteFails;
    if HasWritten(c, payloads, fails, read, writes, false) {
      assert forall i :: 0 <= i < read ==> !WriteFails(c, payloads, fails, i);
    }
  }

  lemma WriteFailsIs(c: Conversion, payloads: seq<seq<byte>>, fails: nat -> bool, i: nat)
    requires i < |payloads|
    ensures WriteFails(c, payloads, fails, i) <==> Gain(c, Flatten(payloads[..i]), payloads[i]) != [] && fails(i)
  {
    hide Gain, Flatten;
  }

  /**
   The send loop over the payloads it is handed. fails stands for the outcome of writing what
   payload i became; the first failure ends the loop.
   */
  method SendLoop(t: InputTranscoder?, payloads: seq<seq<byte>>, fails: nat -> bool)
    returns (writes: seq<seq<byte>>, read: nat, failed: bool)
    requires FedIn(t, [])
    modifies TouchedIn(t)
    ensures HasWritten(Inbound(t), payloads, fails, read, writes, failed)
    ensures read <= |payloads| && FedIn(t, Flatten(payloads[..read])) && (!failed ==> read == |payloads|)
    ensures Flatten(writes) == Convert(Inbound(t), Flatten(payloads[..read])) && [] !in writes
  {
    hide Inbound, HasWritten, FedIn, TouchedIn, Flatten, Gain;
    writes, read, failed := [], 0, false;
    WrittenNothing(Inbound(t), payloads, fails);
    while read < |payloads|
      invariant read <= |payloads| && !failed && FedIn(t, Flatten(payloads[..read]))
      invariant HasWritten(Inbound(t), payloads, fails, read, writes, failed)
    {
      var data := ToSocket(t, payloads[read], Flatten(payloads[..read]));
      WrittenOneMore(Inbound(t), payloads, fails, read, writes);
      read := read + 1;
      if |data| == 0 {
        assert writes + UnlessEmpty(data) == writes;
        continue;
      }
      writes := writes + [data];
      if fails(read - 1) {
        failed := true;
        break;
      }
    }
    WrittenSound(Inbound(t), payloads, fails, read, writes, failed);
  }

  lemma WrittenSound(c: Conversion, payloads: seq<seq<byte>>, fails: nat -> bool, read: nat,
                     writes: seq<seq<byte>>, failed: bool)
    ensures HasWritten(c, payloads, fails, read, writes, failed) ==>
      && read <= |payloads|
      && Flatten(writes) == Convert(c, Flatten(payloads[..read])) && [] !in writes
  {
    if HasWritten(c, payloads, fails, read, writes, failed) {
      WrittenIsConverted(c, payloads[..read]);
    }
  }

  // ---- from the backend's messages to the wire -------------------------------------------

  /** In the order the outbound writer comes to them: a message and what becomes of its event, or the media clock. */
  datatype Happening = Received(message: Message, delivery: Delivery) | Ticked(now: int)

  function Messages(hs: seq<Happening>): seq<Message> {
    if hs == [] then []
    else Messages(hs[..|hs| - 1]) + match hs[|hs| - 1] { case Received(m, _) => [m] case Ticked(_) => [] }
  }

  function Deliveries(hs: seq<Happening>): (ds: seq<Delivery>)
    ensures |ds| == |Messages(hs)|
  {
    if hs == [] then []
    else Deliveries(hs[..|hs| - 1]) + match hs[|hs| - 1] { case Received(_, d) => [d] case Ticked(_) => [] }
  }

  /** What the relay hands its writer for an event. */
  function CommandOf(e: Event): seq<Wire.Input> {
    match e
    case Audio(audio) => [Wire.Audio(audio)]
    case Notice(signal) => if signal.BargeIn? || signal.Transfer? then [Wire.BargeIn] else []
  }

  function Commands(events: seq<Event>): seq<Wire.Input> {
    if events == [] then [] else Commands(events[..|events| - 1]) + CommandOf(events[|events| - 1])
  }

  /** What the writer gets of a happening while the receive loop is still reading, or no longer. */
  ghost function InputsOf(c: Conversion, before: seq<byte>, reading: bool, h: Happening): seq<Wire.Input> {
    match h
    case Received(m, d) => if reading && d == Taken then Commands(EventsOf(c, before, m)) else []
    case Ticked(now) => [Wire.Tick(now)]
  }

  ghost predicate KeepsReading(c: Conversion, before: seq<byte>, h: Happening) {
    h.Received? ==> ExitOf(c, before, h.message, h.delivery) == Reading
  }

  /** Nothing in hs has ended the receive loop. */
  ghost predicate StillReading(c: Conversion, hs: seq<Happening>) {
    hs == [] ||
    var init := hs[..|hs| - 1];
    StillReading(c, init) && KeepsReading(c, Heard(Messages(init)), hs[|hs| - 1])
  }

  /** Everything the writer handles over a run. */
  ghost function Handed(c: Conversion, hs: seq<Happening>): seq<Wire.Input> {
    if hs == [] then []
    else
      var init := hs[..|hs| - 1];
      Handed(c, init) + InputsOf(c, Heard(Messages(init)), StillReading(c, init), hs[|hs| - 1])
  }

  function Sounding(data: seq<byte>): Happening {
    Received(Binary(data), Taken)
  }

  /** An audio message that follows another joins it. */
  ghost function Join(init: seq<Happening>, last: Happening): seq<Happening> {
    if init != [] && IsAudio(init[|init| - 1]) && IsAudio(last)
    then init[..|init| - 1] + [Sounding(init[|init| - 1].message.data + last.message.data)]
    else init + [last]
  }

  /** An audio message whose event is taken. */
  ghost predicate IsAudio(h: Happening) {
    h.Received? && h.message.Binary? && h.delivery == Taken
  }

  /** Adjacent audio messages run together. */
  ghost function Merge(hs: seq<Happening>): seq<Happening>
    decreases |hs|
  {
    if hs == [] then [] else Join(Merge(hs[..|hs| - 1]), hs[|hs| - 1])
  }

  lemma Append(c: Conversion, hs: seq<Happening>, h: Happening)
    ensures Heard(Messages(hs + [h])) == Heard(Messages(hs)) + if h.Received? then DataOf(h.message) else []
    ensures Handed(c, hs + [h]) == Handed(c, hs) + InputsOf(c, Heard(Messages(hs)), StillReading(c, hs), h)
    ensures StillReading(c, hs + [h]) <==> StillReading(c, hs) && KeepsReading(c, Heard(Messages(hs)), h)
  {
    assert (hs + [h])[..|hs|] == hs;
    hide InputsOf, KeepsReading, Heard;
    if h.Received? {
      HeardMore(Messages(hs), h.message);
    } else {
      assert Messages(hs) + [] == Messages(hs);
      assert Heard(Messages(hs)) + [] == Heard(Messages(hs));
    }
  }

  lemma HeardMore(ms: seq<Message>, m: Message)
    ensures Heard(ms + [m]) == Heard(ms) + DataOf(m)
  {
    assert (ms + [m])[..|ms|] == ms;
  }

  /** Same audio heard, the loop reading on or not, and the same run of the writer. */
  ghost predicate Alike(c: Conversion, a: seq<Happening>, b: seq<Happening>) {
    && Heard(Messages(a)) == Heard(Messages(b)) && (StillReading(c, a) <==> StillReading(c, b))
    && Wire.SameRun(Handed(c, a), Handed(c, b))
  }

  lemma AlikeAppend(c: Conversion, a: seq<Happening>, b: seq<Happening>, h: Happening)
    ensures Alike(c, a, b) ==> Alike(c, a + [h], b + [h])
  {
    Append(c, a, h);
    Append(c, b, h);
    hide Heard, Messages, Handed, InputsOf, StillReading, KeepsReading, Wire.SameRun;
    if Alike(c, a, b) {
      SameRunAppendAll(Handed(c, a), Handed(c, b), InputsOf(c, Heard(Messages(a)), StillReading(c, a), h));
    }
  }

  lemma {:induction false} SameRunAppendAll(a: seq<Wire.Input>, b: seq<Wire.Input>, xs: seq<Wire.Input>)
    requires Wire.SameRun(a, b)
    ensures Wire.SameRun(a + xs, b + xs)
    decreases |xs|
  {
    hide Wire.SameRun;
    if xs == [] {
      assert a + xs == a && b + xs == b;
    } else {
      var n := |xs| - 1;
      SameRunAppendAll(a, b, xs[..n]);
      Wire.SameRunAppend(a + xs[..n], b + xs[..n], xs[n]);
      assert a + xs == a + xs[..n] + [xs[n]] && b + xs == b + xs[..n] + [xs[n]];
    }
  }

  /** One audio message is one chunk for the writer, empty ones included. */
  lemma AudioIsChunk(c: Conversion, pre: seq<Wire.Input>, before: seq<byte>, data: seq<byte>)
    ensures Wire.SameRun(pre + InputsOf(c, before, true, Sounding(data)), pre + [Wire.Audio(Gain(c, before, data))])
  {
    hide Wire.SameRun, Gain;
    Wire.SameRunTransitive(pre + [Wire.Audio([])], pre, pre);
    Wire.SameRunTransitive(pre + [Wire.Audio(Gain(c, before, data))], pre, pre);
    if c != PassThrough && Gain(c, before, data) == [] {
      Wire.EmptyChunk(pre);
      assert pre + [] == pre;
      Wire.SameRunTransitive(pre, pre + [Wire.Audio([])], pre + [Wire.Audio([])]);
    } else {
      var events := [Audio(Gain(c, before, data))];
      assert events[..0] == [] && Commands([]) == [];
      assert Commands(events) == [Wire.Audio(Gain(c, before, data))];
    }
  }

  lemma JoinAudio(c: Conversion, pre: seq<Wire.Input>, before: seq<byte>, a: seq<byte>, b: seq<byte>)
    ensures Wire.SameRun(pre + InputsOf(c, before, true, Sounding(a + b)),
                         pre + InputsOf(c, before, true, Sounding(a)) + InputsOf(c, before + a, true, Sounding(b)))
  {
    hide *;
    var x, y := InputsOf(c, before, true, Sounding(a)), InputsOf(c, before + a, true, Sounding(b));
    var g, h := Gain(c, before, a), Gain(c, before + a, b);
    GainSplits(c, before, a, b);
    AudioIsChunk(c, pre, before, a + b);
    AudioIsChunk(c, pre, before, a);
    AudioIsChunk(c, pre + x, before + a, b);
    Wire.SameRunAppend(pre + x, pre + [Wire.Audio(g)], Wire.Audio(h));
    Wire.SplitChunk(pre, g, h);
    Wire.SameRunTransitive(pre + x + y, pre + x + [Wire.Audio(h)], pre + [Wire.Audio(g)] + [Wire.Audio(h)]);
    Wire.SameRunTransitive(pre + x + y, pre + [Wire.Audio(g)] + [Wire.Audio(h)], pre + [Wire.Audio(g + h)]);
    Wire.SameRunTransitive(pre + [Wire.Audio(g + h)], pre + x + y, pre + x + y);
    Wire.SameRunTransitive(pre + InputsOf(c, before, true, Sounding(a + b)), pre + [Wire.Audio(g + h)], pre + x + y);
  }

  /** Once the loop has ended audio goes nowhere; and audio that is taken never ends it. */
  lemma SoundingReads(c: Conversion, pre: seq<Wire.Input>, before: seq<byte>, data: seq<byte>)
    ensures pre + InputsOf(c, before, false, Sounding(data)) == pre
    ensures KeepsReading(c, before, Sounding(data))
    ensures Wire.SameRun(pre, pre)
  {
    Wire.SameRunTransitive(pre, pre, pre);
    hide Wire.SameRun;
  }

  lemma JoinAlike(c: Conversion, init: seq<Happening>, last: Happening)
    ensures Alike(c, Join(init, last), init + [last])
  {
    hide Alike;
    AlikeTransitive(c, init + [last], init + [last], init + [last]);
    if init != [] && IsAudio(init[|init| - 1]) && IsAudio(last) {
      var pre, a := init[..|init| - 1], init[|init| - 1].message.data;
      assert init == pre + [Sounding(a)] && last == Sounding(last.message.data);
      hide IsAudio;
      JoinedAlike(c, pre, a, last.message.data);
    }
  }

  lemma JoinedAlike(c: Conversion, pre: seq<Happening>, a: seq<byte>, b: seq<byte>)
    ensures Alike(c, pre + [Sounding(a + b)], pre + [Sounding(a)] + [Sounding(b)])
  {
    var before := Heard(Messages(pre));
    Append(c, pre, Sounding(a + b));
    Append(c, pre, Sounding(a));
    Append(c, pre + [Sounding(a)], Sounding(b));
    hide Heard, Messages, Handed, InputsOf, StillReading, KeepsReading, Wire.SameRun;
    SoundingReads(c, Handed(c, pre), before, a + b);
    SoundingReads(c, Handed(c, pre), before, a);
    SoundingReads(c, Handed(c, pre), before + a, b);
    JoinAudio(c, Handed(c, pre), before, a, b);
    Playout.Reassociate(before, a, b);
  }

  lemma AlikeTransitive(c: Conversion, x: seq<Happening>, y: seq<Happening>, z: seq<Happening>)
    ensures Alike(c, x, y) && Alike(c, y, z) ==> Alike(c, x, z)
    ensures Alike(c, x, x)
  {
    hide Wire.SameRun, Heard, Messages, Handed, StillReading;
    Wire.SameRunTransitive(Handed(c, x), Handed(c, y), Handed(c, z));
  }

  lemma {:induction false} MergedAlike(c: Conversion, hs: seq<Happening>)
    ensures Alike(c, Merge(hs), hs)
    decreases |hs|
  {
    hide Alike, Join;
    if hs == [] {
      AlikeTransitive(c, [], [], []);
    } else {
      var init, last := hs[..|hs| - 1], hs[|hs| - 1];
      MergedAlike(c, init);
      assert init + [last] == hs;
      AlikeAppend(c, Merge(init), init, last);
      JoinAlike(c, Merge(init), last);
      AlikeTransitive(c, Join(Merge(init), last), Merge(init) + [last], hs);
    }
  }

  /**
   However the backend cuts its audio into messages between the same signals and ticks, the relay's
   writer does the same: same frames, same drops, same buffer.
   */
  lemma MessageCutsNeverReachTheWire(c: Conversion, hs: seq<Happening>, hs': seq<Happening>)
    requires Merge(hs) == Merge(hs')
    ensures Playout.Inv(Playout.EMPTY)
    ensures Wire.Ticks(Handed(c, hs)) == Wire.Ticks(Handed(c, hs'))
    ensures Playout.Run(Playout.EMPTY, Wire.Expand(Handed(c, hs)))
         == Playout.Run(Playout.EMPTY, Wire.Expand(Handed(c, hs')))
  {
    MergedAlike(c, hs);
    MergedAlike(c, hs');
  }

  function WithoutTicks(ins: seq<Wire.Input>): seq<Wire.Input> {
    if ins == [] then []
    else WithoutTicks(ins[..|ins| - 1]) + if ins[|ins| - 1].Tick? then [] else [ins[|ins| - 1]]
  }

  lemma TicksSnoc(ins: seq<Wire.Input>, x: Wire.Input)
    ensures WithoutTicks(ins + [x]) == WithoutTicks(ins) + if x.Tick? then [] else [x]
  {
    assert (ins + [x])[..|ins|] == ins;
  }

  lemma {:induction false} WithoutTicksConcat(a: seq<Wire.Input>, b: seq<Wire.Input>)
    ensures WithoutTicks(a + b) == WithoutTicks(a) + WithoutTicks(b)
    decreases |b|
  {
    if b == [] {
      assert a + b == a;
    } else {
      hide *;
      var init, last := b[..|b| - 1], b[|b| - 1];
      SplitLast(a, b);
      WithoutTicksConcat(a, init);
      TicksSnoc(a + init, last);
      TicksSnoc(init, last);
      Playout.Reassociate(WithoutTicks(a), WithoutTicks(init), if last.Tick? then [] else [last]);
    }
  }

  lemma CommandsSnoc(events: seq<Event>, e: Event)
    ensures Commands(events + [e]) == Commands(events) + CommandOf(e)
  {
    assert (events + [e])[..|events|] == events;
  }

  lemma {:induction false} CommandsConcat(a: seq<Event>, b: seq<Event>)
    ensures Commands(a + b) == Commands(a) + Commands(b)
    decreases |b|
  {
    if b == [] {
      assert a + b == a;
    } else {
      hide *;
      var init, last := b[..|b| - 1], b[|b| - 1];
      SplitLast(a, b);
      CommandsConcat(a, init);
      CommandsSnoc(a + init, last);
      CommandsSnoc(init, last);
      Playout.Reassociate(Commands(a), Commands(init), CommandOf(last));
    }
  }

  lemma {:induction false} CommandsHaveNoTicks(events: seq<Event>)
    ensures WithoutTicks(Commands(events)) == Commands(events)
    decreases |events|
  {
    if events == [] {
    } else {
      var n := |events| - 1;
      CommandsHaveNoTicks(events[..n]);
      var cmd := CommandOf(events[n]);
      WithoutTicksConcat(Commands(events[..n]), cmd);
      assert cmd != [] ==> cmd[..0] == [] && WithoutTicks(cmd[..0]) == [];
    }
  }

  /** deliver does with the event of each message what hs says. */
  ghost predicate Delivers(hs: seq<Happening>, deliver: nat -> Delivery) {
    forall i :: 0 <= i < |Deliveries(hs)| ==> deliver(i) == Deliveries(hs)[i]
  }

  /** The receive loop over the messages of hs, as far as it reads them. */
  ghost predicate LoopOver(c: Conversion, hs: seq<Happening>, deliver: nat -> Delivery, read: nat,
                           events: seq<Event>, exit: Exit)
  {
    && HasRead(c, Messages(hs), deliver, read, events, exit)
    && (exit == Reading ==> read == |Messages(hs)|)
  }

  /** There is one way to read a list of messages. */
  lemma ReadOnce(c: Conversion, ms: seq<Message>, deliver: nat -> Delivery, read: nat, events: seq<Event>,
                 exit: Exit, read': nat, events': seq<Event>, exit': Exit)
    requires HasRead(c, ms, deliver, read, events, exit) && (exit == Reading ==> read == |ms|)
    requires HasRead(c, ms, deliver, read', events', exit') && (exit' == Reading ==> read' == |ms|)
    ensures read == read' && events == events' && exit == exit'
  {
    hide Emitted, ExitAt;
  }

  /** A message more changes nothing about what was read before. */
  lemma HasReadLonger(c: Conversion, ms: seq<Message>, m: Message, deliver: nat -> Delivery, read: nat,
                      events: seq<Event>, exit: Exit)
    ensures HasRead(c, ms, deliver, read, events, exit) ==> HasRead(c, ms + [m], deliver, read, events, exit)
  {
    if HasRead(c, ms, deliver, read, events, exit) {
      assert (ms + [m])[..read] == ms[..read];
      forall i | 0 <= i < read
        ensures ExitAt(c, ms + [m], deliver, i) == ExitAt(c, ms, deliver, i)
      {
        assert (ms + [m])[..i] == ms[..i];
      }
      hide ExitAt, Emitted;
    }
  }

  /** Read so far, the loop stands as hs says and the writer has been handed its events. */
  ghost predicate LoopHanded(c: Conversion, hs: seq<Happening>, deliver: nat -> Delivery, read: nat,
                             events: seq<Event>, exit: Exit)
  {
    && LoopOver(c, hs, deliver, read, events, exit)
    && (exit == Reading <==> StillReading(c, hs))
    && WithoutTicks(Handed(c, hs)) == Commands(events)
  }

  lemma {:induction false} LoopHands(c: Conversion, hs: seq<Happening>, deliver: nat -> Delivery)
    returns (read: nat, events: seq<Event>, exit: Exit)
    requires Delivers(hs, deliver)
    ensures LoopHanded(c, hs, deliver, read, events, exit)
    decreases |hs|
  {
    if hs == [] {
      ReadNothing(c, [], deliver);
      read, events, exit := 0, [], Reading;
    } else {
      hide *;
      var init, last := hs[..|hs| - 1], hs[|hs| - 1];
      assert init + [last] == hs;
      DeliversBefore(init, last, deliver);
      read, events, exit := LoopHands(c, init, deliver);
      read, events, exit := LoopHandsOne(c, init, last, deliver, read, events, exit);
    }
  }

  lemma LoopHandsOne(c: Conversion, hs: seq<Happening>, h: Happening, deliver: nat -> Delivery, read: nat,
                     events: seq<Event>, exit: Exit)
    returns (read': nat, events': seq<Event>, exit': Exit)
    requires LoopHanded(c, hs, deliver, read, events, exit)
    requires h.Received? ==> deliver(|Messages(hs)|) == h.delivery
    ensures LoopHanded(c, hs + [h], deliver, read', events', exit')
  {
    hide Handed, WithoutTicks, Commands, StillReading, KeepsReading, LoopOver, Heard, Messages, EventsOf;
    HandedOn(c, hs, h);
    read', events', exit' := read, events, exit;
    if h.Ticked? {
      SameMessages(c, hs, h, deliver, read, events, exit);
    } else if exit != Reading {
      NothingRead(c, hs, h, deliver, read, events, exit);
    } else {
      events', exit' := OneMoreRead(c, hs, h, deliver, read, events);
      read' := read + 1;
    }
  }

  lemma DeliversBefore(hs: seq<Happening>, h: Happening, deliver: nat -> Delivery)
    requires Delivers(hs + [h], deliver)
    ensures Delivers(hs, deliver) && (h.Received? ==> deliver(|Messages(hs)|) == h.delivery)
  {
    assert (hs + [h])[..|hs|] == hs;
    var d := Deliveries(hs);
    assert Deliveries(hs + [h]) == d + if h.Received? then [h.delivery] else [];
    if h.Received? {
      assert Deliveries(hs + [h])[|d|] == h.delivery;
    }
    forall i | 0 <= i < |d|
      ensures deliver(i) == d[i]
    {
      assert Deliveries(hs + [h])[i] == d[i];
    }
  }

  /** What one happening adds to what the writer is handed, ticks left out. */
  lemma HandedOn(c: Conversion, hs: seq<Happening>, h: Happening)
    ensures WithoutTicks(Handed(c, hs + [h])) == WithoutTicks(Handed(c, hs)) +
      if h.Received? && StillReading(c, hs) && h.delivery == Taken
      then Commands(EventsOf(c, Heard(Messages(hs)), h.message)) else []
    ensures StillReading(c, hs + [h]) <==> StillReading(c, hs) && KeepsReading(c, Heard(Messages(hs)), h)
    ensures Messages(hs + [h]) == Messages(hs) + if h.Received? then [h.message] else []
  {
    assert (hs + [h])[..|hs|] == hs;
    Append(c, hs, h);
    hide Handed, StillReading, KeepsReading, Heard, EventsOf, Commands, WithoutTicks;
    var more := InputsOf(c, Heard(Messages(hs)), StillReading(c, hs), h);
    WithoutTicksConcat(Handed(c, hs), more);
    if h.Ticked? {
      NoInput(h.now);
    } else {
      CommandsHaveNoTicks(EventsOf(c, Heard(Messages(hs)), h.message));
      CommandsHaveNoTicks([]);
      NoCommands();
    }
  }

  lemma NoInput(now: int)
    ensures WithoutTicks([Wire.Tick(now)]) == []
  {
    assert [Wire.Tick(now)][..0] == [];
  }

  lemma NoCommands()
    ensures Commands([]) == []
  {
  }

  lemma SameMessages(c: Conversion, hs: seq<Happening>, h: Happening, deliver: nat -> Delivery, read: nat,
                     events: seq<Event>, exit: Exit)
    requires h.Ticked?
    ensures LoopOver(c, hs, deliver, read, events, exit) ==> LoopOver(c, hs + [h], deliver, read, events, exit)
    ensures KeepsReading(c, Heard(Messages(hs)), h)
  {
    assert (hs + [h])[..|hs|] == hs;
    assert Messages(hs + [h]) == Messages(hs);
    hide HasRead;
  }

  lemma NothingRead(c: Conversion, hs: seq<Happening>, h: Happening, deliver: nat -> Delivery, read: nat,
                    events: seq<Event>, exit: Exit)
    requires h.Received? && exit != Reading
    ensures LoopOver(c, hs, deliver, read, events, exit) ==> LoopOver(c, hs + [h], deliver, read, events, exit)
  {
    assert (hs + [h])[..|hs|] == hs;
    assert Messages(hs + [h]) == Messages(hs) + [h.message];
    HasReadLonger(c, Messages(hs), h.message, deliver, read, events, exit);
    hide HasRead;
  }

  lemma OneMoreRead(c: Conversion, hs: seq<Happening>, h: Happening, deliver: nat -> Delivery, read: nat,
                    events: seq<Event>)
    returns (events': seq<Event>, exit': Exit)
    requires h.Received? && deliver(|Messages(hs)|) == h.delivery
    requires LoopOver(c, hs, deliver, read, events, Reading)
    ensures LoopOver(c, hs + [h], deliver, read + 1, events', exit')
    ensures exit' == Reading <==> KeepsReading(c, Heard(Messages(hs)), h)
    ensures Commands(events') == Commands(events) +
      if h.delivery == Taken then Commands(EventsOf(c, Heard(Messages(hs)), h.message)) else []
  {
    var ms := Messages(hs) + [h.message];
    assert (hs + [h])[..|hs|] == hs;
    assert Messages(hs + [h]) == ms && ms[..read] == Messages(hs);
    HasReadLonger(c, Messages(hs), h.message, deliver, read, events, Reading);
    ReadOneMore(c, ms, deliver, read, events);
    hide HasRead, Messages, Heard, EventsOf, ExitOf, Commands;
    var more := if h.delivery == Taken then EventsOf(c, Heard(ms[..read]), h.message) else [];
    events', exit' := events + more, ExitOf(c, Heard(ms[..read]), h.message, h.delivery);
    CommandsConcat(events, more);
    NoCommands();
  }

  /** But for the ticks in between, the writer is handed exactly the events the receive loop hands on. */
  lemma HandedIsEmitted(c: Conversion, hs: seq<Happening>, deliver: nat -> Delivery, read: nat,
                        events: seq<Event>, exit: Exit)
    requires Delivers(hs, deliver)
    ensures LoopOver(c, hs, deliver, read, events, exit) ==> WithoutTicks(Handed(c, hs)) == Commands(events)
  {
    var read', events', exit' := LoopHands(c, hs, deliver);
    hide WithoutTicks, Handed, Commands, StillReading, HasRead;
    if LoopOver(c, hs, deliver, read, events, exit) {
      ReadOnce(c, Messages(hs), deliver, read, events, exit, read', events', exit');
    }
  }
}
