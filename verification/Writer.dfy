/** The outboundRTPWriter object of internal/call/call.go, refining the playout machine. */
module Writer {
  import opened Common
  import opened Playout
  import opened MediaClock
  import Ring
  import Rtp

  type Deadline = Option<int>

  ghost function FrameEvents(n: nat): seq<Event> {
    seq(n, i => Frame)
  }

  ghost function PadAll(parts: seq<seq<byte>>): seq<seq<byte>> {
    seq(|parts|, i requires 0 <= i < |parts| => Padded(parts[i]))
  }

  lemma OneMoreFrame(l: Log, n: nat)
    requires Inv(l)
    ensures Playout.Run(l, FrameEvents(n + 1)) == Step(Playout.Run(l, FrameEvents(n)), Frame)
    ensures Playout.Run(l, FrameEvents(0)) == l
  {
    assert FrameEvents(n + 1) == FrameEvents(n) + [Frame];
    Playout.RunSnoc(l, FrameEvents(n), Frame);
  }

  lemma FrameAddsPart(l: Log, m: nat)
    requires Inv(l) && m <= |l.parts|
    ensures Step(l, Frame).parts[m..] == l.parts[m..] + [Part(l.state)]
  {
    hide Inv, Apply;
  }

  lemma OneMorePacket(st: Rtp.Sender, conf: Rtp.Settings, parts: seq<seq<byte>>, part: seq<byte>)
    ensures Rtp.SendAll(st, conf, PadAll(parts + [part]))
         == Rtp.Send(Rtp.SendAll(st, conf, PadAll(parts)), conf, Padded(part))
    ensures Rtp.SendAll(st, conf, PadAll([])) == st
  {
    hide Padded;
    assert PadAll(parts + [part]) == PadAll(parts) + [Padded(part)];
    Rtp.SendAllSnoc(st, conf, PadAll(parts), Padded(part));
  }

  class OutboundWriter {
    const port: Rtp.Port
    const ring: Ring.ByteRing
    const frameBuf: array<byte>
    var overCap: bool
    var buffering: bool
    /** None is the zero time: no frame emitted yet. */
    var lastFrameEnd: Deadline
    /** stats.outboundAudioBytesDropped. */
    var bytesDropped: nat
    ghost var log: Log

    ghost predicate Valid()
      reads this, ring, ring.buf
    {
      && ring.Valid() && ring.buf.Length == CAPACITY
      && frameBuf.Length == Rtp.SAMPLES_PER_FRAME && frameBuf != ring.buf
      && Inv(log)
      && log.state == Buffer(ring.Contents(), overCap, buffering)
      && bytesDropped == log.dropped
    }

    constructor (port: Rtp.Port)
      ensures Valid() && log == EMPTY && lastFrameEnd == None && this.port == port
      ensures fresh(ring) && fresh(ring.buf) && fresh(frameBuf)
    {
      this.port := port;
      ring := new Ring.ByteRing(CAPACITY);
      frameBuf := new byte[Rtp.SAMPLES_PER_FRAME](_ => 0);
      overCap, buffering, bytesDropped := false, true, 0;
      lastFrameEnd := None;
      log := EMPTY;
    }

    /** Exactly one full frame: real audio in front, silence behind. */
    method EmitFrame()
      requires Valid()
      modifies this`buffering, this`log, ring, ring.buf, frameBuf, port
      ensures Valid() && log == Step(old(log), Frame)
      ensures port.Snapshot() == Rtp.Send(old(port.Snapshot()), port.conf, Padded(Part(old(log.state))))
    {
      ghost var before := log;
      var n := FillFront();
      for i := n to frameBuf.Length
        invariant frameBuf[..n] == Part(before.state)
        invariant forall j :: n <= j < i ==> frameBuf[j] == Rtp.SILENCE_BYTE
        invariant Settled(before) && unchanged(port)
        invariant log == before
      {
        frameBuf[i] := Rtp.SILENCE_BYTE;
      }
      FullFrame(frameBuf[..], Part(before.state));
      FrameKeepsInv(before);
      hide Padded, Part, Inv;
      var socketFails: bool := *;
      var _ := port.WriteFrame(frameBuf[..], socketFails);
      log := Step(before, Frame);
    }

    /** The ring and the cushion flag are already those after the frame; the log is not yet. */
    ghost predicate Settled(before: Log)
      requires |before.state.queue| <= CAPACITY
      reads this, ring, ring.buf
    {
      && ring.Valid() && ring.buf.Length == CAPACITY && frameBuf != ring.buf
      && Apply(before.state, Frame) == Buffer(ring.Contents(), overCap, buffering)
      && bytesDropped == before.dropped
    }

    method FillFront() returns (n: nat)
      requires Valid()
      modifies this`buffering, ring, ring.buf, frameBuf
      ensures Settled(log) && n == RealBytes(log.state) <= frameBuf.Length
      ensures frameBuf[..n] == Part(log.state)
    {
      hide Inv;
      n := 0;
      if buffering {
        var buffered := ring.Len();
        if buffered >= CUSHION {
          buffering := false;
          n := ring.Read(frameBuf);
        }
      } else {
        n := ring.Read(frameBuf);
        if n == 0 {
          buffering := true;
        }
      }
    }

    static lemma FullFrame(frame: seq<byte>, part: seq<byte>)
      requires |part| <= |frame| == Rtp.SAMPLES_PER_FRAME && frame[..|part|] == part
      requires forall j :: |part| <= j < |frame| ==> frame[j] == Rtp.SILENCE_BYTE
      ensures frame == Padded(part)
    {
    }

    method HandleCommand(cmd: Event)
      requires Valid() && !cmd.Frame?
      modifies this`overCap, this`buffering, this`bytesDropped, this`log, ring, ring.buf
      ensures Valid() && log == Step(old(log), cmd)
    {
      StepKeepsInv(log, cmd);
      hide Inv, Flatten;
      match cmd
      case Interrupt =>
        ring.Reset();
        overCap := false;
        buffering := true;
        log := Step(log, cmd);
      case Enqueue(audio) =>
        EnqueueIs(log.state, audio);
        hide Apply;
        if |audio| == 0 {
          log := Step(log, cmd);
          assert log.state.queue == ring.Contents() + [];
          return;
        }
        var accepted := ring.Write(audio);
        var dropped := |audio| - accepted;
        if dropped > 0 {
          if !overCap {
            overCap := true;
          }
          bytesDropped := bytesDropped + dropped;
          log := Step(log, cmd);
          return;
        }
        overCap := false;
        log := Step(log, cmd);
    }

    /** The frames the media clock owes at now, and no others. */
    method EmitDue(now: int)
      requires Valid()
      modifies this`buffering, this`log, this`lastFrameEnd, ring, ring.buf, frameBuf, port
      ensures Valid()
      ensures lastFrameEnd == Some(Advance(old(lastFrameEnd), now))
      ensures log == Playout.Run(old(log), FrameEvents(Due(old(lastFrameEnd), now)))
      ensures |old(log.parts)| <= |log.parts|
      ensures port.Snapshot() ==
        Rtp.SendAll(old(port.Snapshot()), port.conf, PadAll(log.parts[|old(log.parts)|..]))
    {
      if lastFrameEnd.None? {
        lastFrameEnd := Some(now);
        EmitFrames(1);
        return;
      }
      var dt := now - lastFrameEnd.value;
      if dt < 0 {
        EmitFrames(0);
        return;
      }
      dt := dt + FRAME_NS / 4;
      var n := dt / FRAME_NS;
      ghost var last := lastFrameEnd;
      assert n == Owed(last.value, now);
      lastFrameEnd := Some(lastFrameEnd.value + n * FRAME_NS);
      if n > MAX_CATCH_UP {
        n := MAX_CATCH_UP;
        lastFrameEnd := Some(now);
      }
      assert n == Due(last, now) && lastFrameEnd.value == Advance(last, now);
      EmitFrames(n);
    }

    method EmitFrames(n: nat)
      requires Valid()
      modifies this`buffering, this`log, ring, ring.buf, frameBuf, port
      ensures Valid() && log == Playout.Run(old(log), FrameEvents(n))
      ensures |old(log.parts)| <= |log.parts|
      ensures port.Snapshot() ==
        Rtp.SendAll(old(port.Snapshot()), port.conf, PadAll(log.parts[|old(log.parts)|..]))
    {
      ghost var before, wire := log, port.Snapshot();
      ghost var m := |log.parts|;
      OneMoreFrame(before, 0);
      assert Inv(before);
      assert log.parts[m..] == [];
      OneMorePacket(wire, port.conf, [], []);
      hide Valid, Inv, Playout.Run, Part, Rtp.Send, Rtp.SendAll, Apply, Padded, PadAll, FrameEvents;
      for i := 0 to n
        invariant Valid() && log == Playout.Run(before, FrameEvents(i)) && m <= |log.parts|
        invariant port.Snapshot() == Rtp.SendAll(wire, port.conf, PadAll(log.parts[m..]))
      {
        OneMoreFrame(before, i);
        FrameAddsPart(log, m);
        OneMorePacket(wire, port.conf, log.parts[m..], Part(log.state));
        EmitFrame();
      }
    }
  }
}
