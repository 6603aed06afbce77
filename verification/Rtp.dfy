/** Packet numbering of internal/rtp/port.go (section 5.1 of RFC 3550). */
module Rtp {
  import opened Common
  import opened Division

  const SAMPLES_PER_FRAME := 160
  const SILENCE_BYTE: byte := 0xFF
  const SEQ_MODULUS := 0x1_0000
  const TS_MODULUS := 0x1_0000_0000

  type Seq16 = n: int | 0 <= n < 0x1_0000

  type Ts32 = n: int | 0 <= n < 0x1_0000_0000

  datatype Address = Address(ip: string, port: int)

  datatype Packet = Packet(seqNo: Seq16, ts: Ts32, ssrc: int, payloadType: int, marker: bool, payload: seq<byte>)

  /** What WriteFrame reads and changes: every packet handed to the socket, and where it was sent. */
  datatype Sender = Sender(remote: Option<Address>, seqNo: Seq16, ts: Ts32, wire: seq<Packet>, sentTo: seq<Address>)

  datatype Settings = Settings(payloadType: int, ssrc: int, outboundFrameBytes: int) {
    function FrameBytes(): int {
      if outboundFrameBytes <= 0 then SAMPLES_PER_FRAME else outboundFrameBytes
    }
  }

  function Send(st: Sender, conf: Settings, payload: seq<byte>): Sender {
    if payload == [] || st.remote.None? then st
    else
      Sender(st.remote, (st.seqNo + 1) % SEQ_MODULUS, (st.ts + conf.FrameBytes()) % TS_MODULUS,
             st.wire + [Packet(st.seqNo, st.ts, conf.ssrc, conf.payloadType, false, payload)],
             st.sentTo + [st.remote.value])
  }

  function SendAll(st: Sender, conf: Settings, payloads: seq<seq<byte>>): Sender {
    if payloads == [] then st
    else Send(SendAll(st, conf, payloads[..|payloads| - 1]), conf, payloads[|payloads| - 1])
  }

  lemma SendAllSnoc(st: Sender, conf: Settings, payloads: seq<seq<byte>>, last: seq<byte>)
    ensures SendAll(st, conf, payloads + [last]) == Send(SendAll(st, conf, payloads), conf, last)
    ensures SendAll(st, conf, []) == st
  {
    assert (payloads + [last])[..|payloads|] == payloads;
  }

  lemma {:induction false} SendAllConcat(st: Sender, conf: Settings, a: seq<seq<byte>>, b: seq<seq<byte>>)
    ensures SendAll(st, conf, a + b) == SendAll(SendAll(st, conf, a), conf, b)
  {
    if b == [] {
      assert a + b == a;
    } else {
      SendAllConcat(st, conf, a, b[..|b| - 1]);
      assert (a + b)[..|a + b| - 1] == a + b[..|b| - 1];
    }
  }

  /** Sequence number of the k-th packet after st. */
  function SeqAt(st: Sender, k: nat): Seq16 {
    (st.seqNo + k) % SEQ_MODULUS
  }

  /** Timestamp of the k-th packet after st. */
  function StampAt(st: Sender, conf: Settings, k: nat): Ts32 {
    (st.ts + conf.FrameBytes() * k) % TS_MODULUS
  }

  /** Packet k of a run: consecutive sequence numbers, timestamps one frame apart, never marked. */
  ghost predicate Numbered(st: Sender, conf: Settings, payloads: seq<seq<byte>>, after: Sender)
    requires st.remote.Some?
  {
    && after.remote == st.remote
    && after.sentTo == st.sentTo + seq(|payloads|, i => st.remote.value)
    && |after.wire| == |st.wire| + |payloads| && st.wire <= after.wire
    && after.seqNo == SeqAt(st, |payloads|)
    && after.ts == StampAt(st, conf, |payloads|)
    && forall k :: 0 <= k < |payloads| ==> IsPacket(after.wire[|st.wire| + k], st, conf, k, payloads[k])
  }

  ghost predicate IsPacket(p: Packet, st: Sender, conf: Settings, k: nat, payload: seq<byte>) {
    && p.seqNo == SeqAt(st, k)
    && p.ts == StampAt(st, conf, k)
    && p.ssrc == conf.ssrc && p.payloadType == conf.payloadType && !p.marker && p.payload == payload
  }

  lemma {:induction false} WireNumbering(st: Sender, conf: Settings, payloads: seq<seq<byte>>)
    requires st.remote.Some? && [] !in payloads
    ensures Numbered(st, conf, payloads, SendAll(st, conf, payloads))
    decreases |payloads|
  {
    if payloads != [] {
      var n := |payloads| - 1;
      WireNumbering(st, conf, payloads[..n]);
      NumberedStep(st, conf, payloads, SendAll(st, conf, payloads[..n]));
    } else {
      assert conf.FrameBytes() * 0 == 0;
    }
  }

  lemma NumberedStep(st: Sender, conf: Settings, payloads: seq<seq<byte>>, before: Sender)
    requires st.remote.Some? && payloads != [] && payloads[|payloads| - 1] != []
    requires Numbered(st, conf, payloads[..|payloads| - 1], before)
    ensures Numbered(st, conf, payloads, Send(before, conf, payloads[|payloads| - 1]))
  {
    var n, last := |payloads| - 1, payloads[|payloads| - 1];
    var after := Send(before, conf, last);
    NextPacket(st, conf, n, before, last);
    assert after.wire == before.wire + [after.wire[|before.wire|]];
    hide Send, IsPacket, SeqAt, StampAt;
    forall k | 0 <= k < |payloads|
      ensures IsPacket(after.wire[|st.wire| + k], st, conf, k, payloads[k])
    {
      if k < n {
        assert after.wire[|st.wire| + k] == before.wire[|st.wire| + k];
        assert payloads[..n][k] == payloads[k];
      }
    }
  }

  lemma NextPacket(st: Sender, conf: Settings, n: nat, before: Sender, payload: seq<byte>)
    requires before.remote.Some? && payload != []
    requires before.seqNo == SeqAt(st, n) && before.ts == StampAt(st, conf, n)
    ensures var after := Send(before, conf, payload);
      && IsPacket(after.wire[|before.wire|], st, conf, n, payload)
      && after.seqNo == SeqAt(st, n + 1) && after.ts == StampAt(st, conf, n + 1)
  {
    NextStamp(st, conf, n);
    hide SeqAt, StampAt, Settings.FrameBytes;
  }

  lemma NextStamp(st: Sender, conf: Settings, n: nat)
    ensures SeqAt(st, n + 1) == (SeqAt(st, n) + 1) % SEQ_MODULUS
    ensures StampAt(st, conf, n + 1) == (StampAt(st, conf, n) + conf.FrameBytes()) % TS_MODULUS
  {
    AddModulo(st.seqNo + n, 1, SEQ_MODULUS);
    NextMultiple(n, conf.FrameBytes());
    AddModulo(st.ts + conf.FrameBytes() * n, conf.FrameBytes(), TS_MODULUS);
    hide Settings.FrameBytes;
  }

  lemma AddModulo(a: int, b: int, m: int)
    requires m > 0
    ensures (a % m + b) % m == (a + b) % m
  {
    DivBounds(a, m);
    DivShift(a / m, a % m + b, m);
  }

  /** Without a remote every frame is consumed and nothing moves. */
  lemma {:induction false} NoRemoteNoPackets(st: Sender, conf: Settings, payloads: seq<seq<byte>>)
    requires st.remote.None?
    ensures SendAll(st, conf, payloads) == st
    decreases |payloads|
  {
    if payloads == [] {
    } else {
      NoRemoteNoPackets(st, conf, payloads[..|payloads| - 1]);
    }
  }

  /** What happens to a port: the remote is learned or replaced, or a frame is written. */
  datatype PortEvent = Learned(addr: Address) | Written(payload: seq<byte>)

  function Handle(st: Sender, conf: Settings, ev: PortEvent): Sender {
    match ev
    case Learned(addr) => st.(remote := Some(addr))
    case Written(payload) => Send(st, conf, payload)
  }

  function HandleAll(st: Sender, conf: Settings, evs: seq<PortEvent>): Sender {
    if evs == [] then st else Handle(HandleAll(st, conf, evs[..|evs| - 1]), conf, evs[|evs| - 1])
  }

  function Payloads(evs: seq<PortEvent>): seq<seq<byte>> {
    if evs == [] then []
    else Payloads(evs[..|evs| - 1]) + match evs[|evs| - 1] { case Written(p) => [p] case _ => [] }
  }

  /** The remote a later packet goes to: the latest one learned. */
  function Latest(remote: Option<Address>, evs: seq<PortEvent>): Option<Address> {
    if evs == [] then remote
    else match evs[|evs| - 1] { case Learned(addr) => Some(addr) case _ => Latest(remote, evs[..|evs| - 1]) }
  }

  /** Where the packets of a run go, each to the latest remote at the time it is written. */
  function Destinations(remote: Option<Address>, evs: seq<PortEvent>): seq<Address> {
    if evs == [] then []
    else
      var before := evs[..|evs| - 1];
      Destinations(remote, before) +
        if evs[|evs| - 1] == Written([]) || evs[|evs| - 1].Learned? || Latest(remote, before).None? then []
        else [Latest(remote, before).value]
  }

  lemma AnyAddress(a: Sender, b: Sender, conf: Settings, payload: seq<byte>)
    requires a.remote.Some? && SameStream(a, b)
    ensures SameStream(Send(a, conf, payload), Send(b, conf, payload))
  {
    hide Settings.FrameBytes;
  }

  /** Equal but for where packets go. */
  ghost predicate SameStream(a: Sender, b: Sender) {
    (a.remote.Some? <==> b.remote.Some?) && a.seqNo == b.seqNo && a.ts == b.ts && a.wire == b.wire
  }

  /**
   Once a remote is known, replacing it (symmetric RTP) does not disturb the packet stream, and
   each packet goes to the remote known when it was written.
   */
  lemma {:induction false} RemoteChangesKeepNumbering(st: Sender, conf: Settings, evs: seq<PortEvent>)
    requires st.remote.Some?
    ensures SameStream(HandleAll(st, conf, evs), SendAll(st, conf, Payloads(evs)))
    ensures HandleAll(st, conf, evs).remote == Latest(st.remote, evs) && Latest(st.remote, evs).Some?
    ensures HandleAll(st, conf, evs).sentTo == st.sentTo + Destinations(st.remote, evs)
    decreases |evs|
  {
    if evs == [] {
    } else {
      var before, ev := evs[..|evs| - 1], evs[|evs| - 1];
      RemoteChangesKeepNumbering(st, conf, before);
      SentTo(HandleAll(st, conf, before), conf, ev);
      if ev.Written? {
        SendAllSnoc(st, conf, Payloads(before), ev.payload);
        AnyAddress(HandleAll(st, conf, before), SendAll(st, conf, Payloads(before)), conf, ev.payload);
      } else {
        assert Payloads(before) + [] == Payloads(before);
      }
      hide Send;
    }
  }

  lemma SentTo(st: Sender, conf: Settings, ev: PortEvent)
    requires st.remote.Some?
    ensures Handle(st, conf, ev).sentTo ==
      st.sentTo + if ev.Learned? || ev.payload == [] then [] else [st.remote.value]
    ensures Handle(st, conf, ev).remote == if ev.Learned? then Some(ev.addr) else st.remote
  {
    hide Settings.FrameBytes;
  }

  /** Whatever was known before, all packets after a remote is learned go to it. */
  lemma {:induction false} AfterLearning(st: Sender, conf: Settings, addr: Address, payloads: seq<seq<byte>>)
    requires [] !in payloads
    ensures var known := st.(remote := Some(addr));
      var r := HandleAll(st, conf, [Learned(addr)] + Writes(payloads));
      && r == SendAll(known, conf, payloads)
      && Numbered(known, conf, payloads, r)
      && r.sentTo == st.sentTo + seq(|payloads|, i => addr)
    decreases |payloads|
  {
    var known := st.(remote := Some(addr));
    WireNumbering(known, conf, payloads);
    if payloads == [] {
      assert [Learned(addr)] + Writes(payloads) == [Learned(addr)];
      assert HandleAll(st, conf, [Learned(addr)][..0]) == st;
    } else {
      var n := |payloads| - 1;
      AfterLearning(st, conf, addr, payloads[..n]);
      var evs := [Learned(addr)] + Writes(payloads);
      assert evs[..|evs| - 1] == [Learned(addr)] + Writes(payloads[..n]);
      hide Send, Numbered;
    }
  }

  function Writes(payloads: seq<seq<byte>>): seq<PortEvent> {
    seq(|payloads|, i requires 0 <= i < |payloads| => Written(payloads[i]))
  }

  /** An empty frame is not sent and spends no number. */
  lemma EmptyFrameSkipped(st: Sender, conf: Settings, a: seq<seq<byte>>, b: seq<seq<byte>>)
    ensures SendAll(st, conf, a + [[]] + b) == SendAll(st, conf, a + b)
  {
    SendAllConcat(st, conf, a + [[]], b);
    SendAllConcat(st, conf, a, b);
    SendAllSnoc(st, conf, a, []);
  }

  /** Sequence numbers repeat exactly every 65536 packets. */
  lemma SequenceRepeats(st: Sender, j: nat, k: nat)
    ensures SeqAt(st, j) == SeqAt(st, k) <==> (k - j) % 65536 == 0
  {
  }

  /** The timestamp follows the payload length exactly when the frame is full: as configured, or 160 bytes. */
  lemma TimestampFollowsPayload(st: Sender, conf: Settings, payload: seq<byte>)
    requires st.remote.Some? && payload != [] && |payload| < TS_MODULUS && conf.outboundFrameBytes < TS_MODULUS
    ensures Send(st, conf, payload).ts == (st.ts + |payload|) % TS_MODULUS
       <==> |payload| == if conf.outboundFrameBytes <= 0 then 160 else conf.outboundFrameBytes
  {
  }

  /** A short frame advances the timestamp by more than the bytes it carries. */
  lemma ShortFrameAdvancesWholeFrame() returns (st: Sender, conf: Settings, payload: seq<byte>)
    ensures st.remote.Some? && |payload| == 80 && Send(st, conf, payload).ts - st.ts == 160
  {
    st := Sender(Some(Address("", 0)), 0, 0, [], []);
    conf := Settings(0, 0, 0);
    payload := seq(80, i => SILENCE_BYTE);
  }

  class Port {
    const conf: Settings
    var remote: Option<Address>
    var seqNo: Seq16
    var ts: Ts32
    var wire: seq<Packet>
    var sentTo: seq<Address>

    function Snapshot(): Sender
      reads this
    {
      Sender(remote, seqNo, ts, wire, sentTo)
    }

    constructor (conf: Settings, seqNo: Seq16, ts: Ts32)
      ensures Snapshot() == Sender(None, seqNo, ts, [], []) && this.conf == conf
    {
      this.conf, this.seqNo, this.ts := conf, seqNo, ts;
      remote, wire, sentTo := None, [], [];
    }

    /** A nil address is ignored, so a remote is never unset. */
    method SetRemote(addr: Option<Address>)
      modifies this`remote
      ensures remote == if addr.None? then old(remote) else addr
      ensures old(remote).Some? ==> remote.Some?
    {
      if addr.None? {
        return;
      }
      remote := addr;
    }

    /** socketFails stands for what the socket does with the datagram; the numbers are spent either way. */
    method WriteFrame(payload: seq<byte>, socketFails: bool) returns (failed: bool)
      modifies this`seqNo, this`ts, this`wire, this`sentTo
      ensures Snapshot() == Send(old(Snapshot()), conf, payload)
      ensures failed <==> socketFails && payload != [] && remote.Some?
    {
      if |payload| == 0 {
        return false;
      }
      if remote.None? {
        return false;
      }
      var packet := Packet(seqNo, ts, conf.ssrc, conf.payloadType, false, payload);
      seqNo := (seqNo + 1) % SEQ_MODULUS;
      ts := (ts + conf.FrameBytes()) % TS_MODULUS;
      wire, sentTo := wire + [packet], sentTo + [remote.value];
      return socketFails;
    }
  }
}
