/** The media-timeout loop and the port probe of internal/rtp/port.go. */
module Sockets {
  import opened Common

  // ---- media timeout ---------------------------------------------------------------------

  /** What wakes the select of Run: cancellation, the read loop ending, or the timer. */
  datatype Wake = Cancelled | ReadEnded(failed: bool) | Timer(now: int, packets: nat)

  /** How Run stands after the wake-ups it has seen, and which of them ended it. */
  datatype Exit =
    | Running
    | ContextDone(at: nat)
    | ReaderDone(at: nat, failed: bool)
    | MediaTimeout(at: nat)

  datatype Limits = Limits(start: int, mediaTO: int, initialTO: int)

  /** Packets counted at the check before check i. */
  ghost function Previous(wakes: seq<Wake>, i: nat): nat
    requires i <= |wakes|
  {
    if i > 0 && wakes[i - 1].Timer? then wakes[i - 1].packets else 0
  }

  /** Check i finds nothing new, and either media had started or the initial grace is over. */
  ghost predicate Expires(lim: Limits, wakes: seq<Wake>, i: nat)
    requires i < |wakes|
  {
    && wakes[i].Timer?
    && wakes[i].packets == Previous(wakes, i)
    && (wakes[i].packets == 0 ==> wakes[i].now - lim.start >= lim.initialTO)
  }

  ghost predicate QuietBefore(lim: Limits, wakes: seq<Wake>, n: nat)
    requires n <= |wakes|
  {
    forall i :: 0 <= i < n ==> wakes[i].Timer? && !Expires(lim, wakes, i)
  }

  /** What wake-up i makes of a loop that has seen nothing but quiet checks before it. */
  ghost function ExitAt(lim: Limits, wakes: seq<Wake>, i: nat): Exit
    requires i < |wakes|
  {
    match wakes[i]
    case Cancelled => ContextDone(i)
    case ReadEnded(failed) => ReaderDone(i, failed)
    case Timer(_, _) => if Expires(lim, wakes, i) then MediaTimeout(i) else Running
  }

  /** The first wake-up that is not a quiet check ends the loop. */
  ghost predicate Exits(lim: Limits, wakes: seq<Wake>, r: Exit) {
    if r == Running then QuietBefore(lim, wakes, |wakes|)
    else r.at < |wakes| && QuietBefore(lim, wakes, r.at) && r == ExitAt(lim, wakes, r.at)
  }

  /**
   The timeout loop over the wake-ups it sees: the first one that is not a quiet check ends it. It
   closes the port unless the reader ended by itself, and has not seen the reader end only when it
   reports a timeout.
   */
  method RunLoop(lim: Limits, wakes: seq<Wake>) returns (r: Exit, closedPort: bool, readerSeen: bool)
    ensures Exits(lim, wakes, r)
    ensures closedPort <==> r.ContextDone? || r.MediaTimeout?
    ensures readerSeen <==> r.ContextDone? || r.ReaderDone?
  {
    var lastPackets := 0;
    for i := 0 to |wakes|
      invariant QuietBefore(lim, wakes, i) && lastPackets == Previous(wakes, i)
    {
      match wakes[i]
      case Cancelled => return ContextDone(i), true, true;
      case ReadEnded(failed) => return ReaderDone(i, failed), false, true;
      case Timer(now, currentPackets) =>
        if currentPackets != lastPackets {
          lastPackets := currentPackets;
          continue;
        }
        if currentPackets == 0 && now - lim.start < lim.initialTO {
          continue;
        }
        return MediaTimeout(i), true, false;
    }
    return Running, false, false;
  }

  /** Accepted packets by time t. */
  ghost function Arrived(arrivals: seq<int>, t: int): nat {
    if arrivals == [] then 0
    else Arrived(arrivals[1..], t) + if arrivals[0] <= t then 1 else 0
  }

  /** Timer checks at times at least mediaTO apart, each seeing the packets accepted by then. */
  ghost predicate IsSchedule(lim: Limits, created: int, arrivals: seq<int>, wakes: seq<Wake>) {
    && (forall i :: 0 <= i < |wakes| ==> wakes[i].Timer? && wakes[i].packets == Arrived(arrivals, wakes[i].now))
    && (|wakes| > 0 ==> wakes[0].now >= created + lim.mediaTO)
    && (forall i :: 0 < i < |wakes| ==> wakes[i].now >= wakes[i - 1].now + lim.mediaTO)
  }

  lemma {:induction false} ArrivedMonotone(arrivals: seq<int>, t: int, u: int)
    requires t <= u
    ensures Arrived(arrivals, t) <= Arrived(arrivals, u)
  {
    if arrivals == [] {
    } else {
      ArrivedMonotone(arrivals[1..], t, u);
    }
  }

  /** The count stands still exactly over a stretch without arrivals. */
  lemma {:induction false} SameCountMeansQuiet(arrivals: seq<int>, t: int, u: int)
    requires t <= u
    ensures Arrived(arrivals, t) == Arrived(arrivals, u) <==> forall a :: a in arrivals ==> !(t < a <= u)
  {
    if arrivals == [] {
    } else {
      SameCountMeansQuiet(arrivals[1..], t, u);
      ArrivedMonotone(arrivals[1..], t, u);
      FirstOrRest(arrivals);
      assert arrivals[0] in arrivals;
    }
  }

  lemma {:induction false} NoneArrived(arrivals: seq<int>, t: int)
    ensures Arrived(arrivals, t) == 0 <==> forall a :: a in arrivals ==> a > t
  {
    if arrivals == [] {
    } else {
      NoneArrived(arrivals[1..], t);
      FirstOrRest(arrivals);
      assert arrivals[0] in arrivals;
    }
  }

  /** A timeout is only reported after mediaTO without an accepted packet. */
  lemma TimeoutOnlyAfterSilence(lim: Limits, created: int, arrivals: seq<int>, wakes: seq<Wake>, i: nat)
    requires i < |wakes| && lim.mediaTO >= 0 && IsSchedule(lim, created, arrivals, wakes) && Expires(lim, wakes, i)
    ensures forall a :: a in arrivals ==> !(wakes[i].now - lim.mediaTO < a <= wakes[i].now)
    ensures (forall a :: a in arrivals ==> a > wakes[i].now) ==> wakes[i].now - lim.start >= lim.initialTO
  {
    NoneArrived(arrivals, wakes[i].now);
    if i > 0 {
      SameCountMeansQuiet(arrivals, wakes[i - 1].now, wakes[i].now);
    }
  }

  /** After the last accepted packet the second check reports the timeout, if none did before. */
  lemma TimeoutBySecondCheck(lim: Limits, created: int, arrivals: seq<int>, wakes: seq<Wake>, i: nat)
    requires i + 1 < |wakes| && lim.mediaTO >= 0 && IsSchedule(lim, created, arrivals, wakes)
    requires arrivals != [] && forall a :: a in arrivals ==> a <= wakes[i].now
    ensures Expires(lim, wakes, i + 1)
  {
    SameCountMeansQuiet(arrivals, wakes[i].now, wakes[i + 1].now);
    NoneArrived(arrivals, wakes[i + 1].now);
    assert arrivals[0] in arrivals;
  }

  /** Without any packet, check i expires exactly when the initial grace is over. */
  lemma InitialTimeout(lim: Limits, created: int, arrivals: seq<int>, wakes: seq<Wake>, i: nat)
    requires i < |wakes| && lim.mediaTO >= 0 && IsSchedule(lim, created, arrivals, wakes)
    requires forall a :: a in arrivals ==> a > wakes[i].now
    ensures Expires(lim, wakes, i) <==> wakes[i].now - lim.start >= lim.initialTO
  {
    NoneArrived(arrivals, wakes[i].now);
    if i > 0 {
      ArrivedMonotone(arrivals, wakes[i - 1].now, wakes[i].now);
    }
  }

  /** With a timer late by at most slack, silence after t is reported by t + 2 (mediaTO + slack). */
  lemma TimeoutWithin(lim: Limits, created: int, arrivals: seq<int>, wakes: seq<Wake>, i: nat, t: int, slack: int)
    requires i + 1 < |wakes| && lim.mediaTO >= 0 && IsSchedule(lim, created, arrivals, wakes)
    requires arrivals != [] && created <= t && forall a :: a in arrivals ==> a <= t
    requires wakes[i].now >= t && (i > 0 ==> wakes[i - 1].now < t)
    requires wakes[0].now <= created + lim.mediaTO + slack
    requires forall k :: 0 < k < |wakes| ==> wakes[k].now <= wakes[k - 1].now + lim.mediaTO + slack
    ensures Expires(lim, wakes, i + 1) && wakes[i + 1].now <= t + 2 * (lim.mediaTO + slack)
  {
    TimeoutBySecondCheck(lim, created, arrivals, wakes, i);
  }

  /** How the loop ended names the wake-up that ended it, and the first such wake-up always ends it. */
  lemma ExitNamesItsCause(lim: Limits, wakes: seq<Wake>, r: Exit, i: nat)
    requires Exits(lim, wakes, r) && i < |wakes|
    ensures r.ContextDone? ==> r.at < |wakes| && wakes[r.at] == Cancelled
    ensures r.ReaderDone? ==> r.at < |wakes| && wakes[r.at] == ReadEnded(r.failed)
    ensures r.MediaTimeout? ==> r.at < |wakes| && wakes[r.at].Timer?
    ensures QuietBefore(lim, wakes, i) && wakes[i] == Cancelled ==> r == ContextDone(i)
    ensures QuietBefore(lim, wakes, i) && wakes[i].ReadEnded? ==> r == ReaderDone(i, wakes[i].failed)
    ensures r == Running ==> wakes[i].Timer?
  {
    hide Expires;
  }

  lemma PrefixExpires(lim: Limits, checks: seq<Wake>, wakes: seq<Wake>, i: nat)
    requires checks <= wakes && i < |checks|
    ensures Expires(lim, checks, i) == Expires(lim, wakes, i) && checks[i] == wakes[i]
  {
  }

  /**
   Whatever else may wake the loop: if it reports a timeout, no packet was accepted for mediaTO
   before, and if none ever was, the initial grace is over.
   */
  lemma LoopTimesOutOnSilence(lim: Limits, created: int, arrivals: seq<int>, wakes: seq<Wake>, r: Exit)
    requires Exits(lim, wakes, r) && r.MediaTimeout? && lim.mediaTO >= 0
    requires IsSchedule(lim, created, arrivals, wakes[..r.at + 1])
    ensures wakes[r.at].Timer?
    ensures forall a :: a in arrivals ==> !(wakes[r.at].now - lim.mediaTO < a <= wakes[r.at].now)
    ensures (forall a :: a in arrivals ==> a > wakes[r.at].now) ==> wakes[r.at].now - lim.start >= lim.initialTO
  {
    var checks := wakes[..r.at + 1];
    PrefixExpires(lim, checks, wakes, r.at);
    TimeoutOnlyAfterSilence(lim, created, arrivals, checks, r.at);
  }

  /** Once two checks have followed the last packet the loop has reported the timeout. */
  lemma LoopTimesOutInTime(lim: Limits, created: int, arrivals: seq<int>, checks: seq<Wake>, wakes: seq<Wake>, r: Exit)
    requires Exits(lim, wakes, r) && lim.mediaTO >= 0
    requires checks <= wakes && |checks| >= 2 && IsSchedule(lim, created, arrivals, checks)
    requires arrivals != [] && forall a :: a in arrivals ==> a <= checks[|checks| - 2].now
    ensures r.MediaTimeout? && r.at < |checks|
  {
    var i := |checks| - 2;
    TimeoutBySecondCheck(lim, created, arrivals, checks, i);
    PrefixExpires(lim, checks, wakes, i + 1);
    hide Expires;
    if !r.Running? && r.at <= i + 1 {
      assert checks[r.at] == wakes[r.at];
    }
  }

  ghost predicate NoneBy(arrivals: seq<int>, t: int) {
    forall a :: a in arrivals ==> a > t
  }

  /** Without any packet the loop reports at the first check at which the initial grace is over. */
  lemma LoopTimesOutInitially(lim: Limits, created: int, arrivals: seq<int>, checks: seq<Wake>, wakes: seq<Wake>,
                              r: Exit)
    requires Exits(lim, wakes, r) && lim.mediaTO >= 0
    requires checks <= wakes && |checks| >= 1 && IsSchedule(lim, created, arrivals, checks)
    requires forall k :: 0 <= k < |checks| ==> NoneBy(arrivals, checks[k].now)
    requires forall k :: 0 <= k < |checks| - 1 ==> checks[k].now - lim.start < lim.initialTO
    requires checks[|checks| - 1].now - lim.start >= lim.initialTO
    ensures r == MediaTimeout(|checks| - 1)
  {
    forall k | 0 <= k < |checks|
      ensures Expires(lim, wakes, k) <==> checks[k].now - lim.start >= lim.initialTO
    {
      assert NoneBy(arrivals, checks[k].now);
      InitialTimeout(lim, created, arrivals, checks, k);
      PrefixExpires(lim, checks, wakes, k);
    }
    hide Expires;
    var last := |checks| - 1;
    assert Expires(lim, wakes, last) && checks[last] == wakes[last];
    if !r.Running? && r.at <= last {
      assert checks[r.at] == wakes[r.at];
    }
  }

  // ---- even-port probing -----------------------------------------------------------------

  datatype Outcome = Free | InUse | Failed

  datatype Bound = Bound(port: int) | BadAddress | Exhausted | SocketError

  function EvenMin(minPort: int): int {
    var m := if minPort <= 0 then 1 else minPort;
    m + 1 - (m + 1) % 2
  }

  function EvenMax(maxPort: int): int {
    var m := if maxPort <= 0 || maxPort > 0xFFFF then 0xFFFF else maxPort;
    m - m % 2
  }

  /** The even ports a caller asks for: a limit that is no port number is none. */
  ghost predicate InRange(minPort: int, maxPort: int, port: int) {
    && port % 2 == 0 && 2 <= port <= 65534 && minPort <= port
    && (1 <= maxPort <= 65535 ==> port <= maxPort)
  }

  /** The rounded limits enclose exactly those ports. */
  lemma EvenLimits(minPort: int, maxPort: int, port: int)
    ensures EvenMin(minPort) % 2 == 0 && EvenMax(maxPort) % 2 == 0
    ensures InRange(minPort, maxPort, port) <==> port % 2 == 0 && EvenMin(minPort) <= port <= EvenMax(maxPort)
  {
  }

  function PortCount(lo: int, hi: int): int {
    (hi - lo) / 2 + 1
  }

  /** The port tried at step t, starting from candidate first and wrapping at the end. */
  function Tried(lo: int, hi: int, first: nat, t: nat): int {
    var i := first + t;
    lo + 2 * if i < PortCount(lo, hi) then i else i - PortCount(lo, hi)
  }

  /** One pass tries every even port of the range, each exactly once: upwards from first, then from the bottom. */
  lemma FullRotation(lo: int, hi: int, first: nat)
    requires lo % 2 == 0 && hi % 2 == 0 && lo <= hi && first < PortCount(lo, hi)
    ensures forall t :: 0 <= t < PortCount(lo, hi) ==>
      lo <= Tried(lo, hi, first, t) <= hi && Tried(lo, hi, first, t) % 2 == 0
    ensures forall t, u :: 0 <= t < u < PortCount(lo, hi) ==> Tried(lo, hi, first, t) != Tried(lo, hi, first, u)
    ensures Tried(lo, hi, first, 0) == lo + 2 * first
    ensures forall t :: 0 <= t < PortCount(lo, hi) - 1 ==>
      Tried(lo, hi, first, t + 1) == if Tried(lo, hi, first, t) == hi then lo else Tried(lo, hi, first, t) + 2
    ensures forall q :: lo <= q <= hi && q % 2 == 0 ==>
      exists t :: 0 <= t < PortCount(lo, hi) && Tried(lo, hi, first, t) == q
  {
    var n := PortCount(lo, hi);
    forall q | lo <= q <= hi && q % 2 == 0
      ensures exists t :: 0 <= t < n && Tried(lo, hi, first, t) == q
    {
      var i := (q - lo) / 2;
      var t := if i >= first then i - first else i - first + n;
      assert Tried(lo, hi, first, t) == q;
    }
  }

  /**
   Probe from a random candidate. pick stands for the random number, probe for the outcome of
   listening on a port at a given try.
   */
  method ListenRange(validIP: bool, minPort: int, maxPort: int, pick: nat, probe: (nat, int) -> Outcome)
    returns (r: Bound)
    ensures !validIP <==> r == BadAddress
    ensures validIP && EvenMin(minPort) > EvenMax(maxPort) ==> r == Exhausted
    ensures validIP && EvenMin(minPort) <= EvenMax(maxPort) ==>
      Probed(EvenMin(minPort), EvenMax(maxPort), pick % PortCount(EvenMin(minPort), EvenMax(maxPort)), probe, r)
  {
    if !validIP {
      return BadAddress;
    }
    var evenMin, evenMax := EvenMin(minPort), EvenMax(maxPort);
    if evenMin > evenMax {
      return Exhausted;
    }
    var ports := PortCount(evenMin, evenMax);
    var first := pick % ports;
    var port := evenMin + 2 * first;
    for try := 0 to ports
      invariant try < ports ==> port == Tried(evenMin, evenMax, first, try)
      invariant forall t :: 0 <= t < try ==> probe(t, Tried(evenMin, evenMax, first, t)) == InUse
    {
      var outcome := probe(try, port);
      if outcome == Free {
        return Bound(port);
      }
      if outcome != InUse {
        return SocketError;
      }
      port := port + 2;
      if port > evenMax {
        port := evenMin;
      }
    }
    return Exhausted;
  }

  /** The first candidate of the rotation not in use decides; exhaustion means all were in use. */
  ghost predicate Probed(lo: int, hi: int, first: nat, probe: (nat, int) -> Outcome, r: Bound) {
    match r
    case BadAddress => false
    case Exhausted => forall t :: 0 <= t < PortCount(lo, hi) ==> probe(t, Tried(lo, hi, first, t)) == InUse
    case Bound(port) =>
      exists t :: Decides(lo, hi, first, probe, t) && port == Tried(lo, hi, first, t) && probe(t, port) == Free
    case SocketError =>
      exists t :: Decides(lo, hi, first, probe, t) && probe(t, Tried(lo, hi, first, t)) == Failed
  }

  ghost predicate Decides(lo: int, hi: int, first: nat, probe: (nat, int) -> Outcome, t: int) {
    && 0 <= t < PortCount(lo, hi)
    && forall u :: 0 <= u < t ==> probe(u, Tried(lo, hi, first, u)) == InUse
  }

  /** A port handed out is even and within the range asked for. */
  lemma BoundPortInRange(minPort: int, maxPort: int, first: nat, probe: (nat, int) -> Outcome, port: int)
    requires EvenMin(minPort) <= EvenMax(maxPort) && first < PortCount(EvenMin(minPort), EvenMax(maxPort))
    requires Probed(EvenMin(minPort), EvenMax(maxPort), first, probe, Bound(port))
    ensures InRange(minPort, maxPort, port)
  {
    EvenLimits(minPort, maxPort, port);
    FullRotation(EvenMin(minPort), EvenMax(maxPort), first);
    hide Tried, Decides, EvenMin, EvenMax, PortCount, InRange;
  }

  /** If occupancy does not change during the pass, exhaustion means every even port of the range was taken. */
  lemma ExhaustedMeansAllTaken(minPort: int, maxPort: int, first: nat, probe: (nat, int) -> Outcome, port: int)
    requires EvenMin(minPort) <= EvenMax(maxPort) ==>
      && first < PortCount(EvenMin(minPort), EvenMax(maxPort))
      && Probed(EvenMin(minPort), EvenMax(maxPort), first, probe, Exhausted)
    requires forall t, u, p :: probe(t, p) == probe(u, p)
    requires InRange(minPort, maxPort, port)
    ensures probe(0, port) == InUse
  {
    EvenLimits(minPort, maxPort, port);
    var lo, hi := EvenMin(minPort), EvenMax(maxPort);
    FullRotation(lo, hi, first);
    hide Tried, EvenMin, EvenMax, InRange;
    var t :| 0 <= t < PortCount(lo, hi) && Tried(lo, hi, first, t) == port;
    assert probe(t, port) == probe(0, port);
  }

  /** With stable occupancy and no other socket error, a port is found exactly if the range has a free one. */
  lemma FoundIffFree(minPort: int, maxPort: int, first: nat, probe: (nat, int) -> Outcome, r: Bound)
    requires EvenMin(minPort) <= EvenMax(maxPort) && first < PortCount(EvenMin(minPort), EvenMax(maxPort))
    requires Probed(EvenMin(minPort), EvenMax(maxPort), first, probe, r)
    requires forall t, u, p :: probe(t, p) == probe(u, p)
    requires forall p :: probe(0, p) != Failed
    ensures r.Bound? || r == Exhausted
    ensures r.Bound? <==> exists port :: InRange(minPort, maxPort, port) && probe(0, port) == Free
  {
    var lo, hi := EvenMin(minPort), EvenMax(maxPort);
    hide Tried, EvenMin, EvenMax, PortCount, InRange;
    match r
    case Bound(port) =>
      BoundPortInRange(minPort, maxPort, first, probe, port);
      var t :| Decides(lo, hi, first, probe, t) && port == Tried(lo, hi, first, t) && probe(t, port) == Free;
      assert probe(t, port) == probe(0, port);
    case Exhausted =>
      forall port | InRange(minPort, maxPort, port)
        ensures probe(0, port) == InUse
      {
        ExhaustedMeansAllTaken(minPort, maxPort, first, probe, port);
      }
    case SocketError =>
      var t :| Decides(lo, hi, first, probe, t) && probe(t, Tried(lo, hi, first, t)) == Failed;
      Stable(probe, t, Tried(lo, hi, first, t));
    case BadAddress =>
  }

  lemma Stable(probe: (nat, int) -> Outcome, t: nat, port: int)
    requires forall t, u, p :: probe(t, p) == probe(u, p)
    ensures probe(t, port) == probe(0, port)
  {
  }

  /** No port is tried exactly if the range holds no even port. */
  lemma EmptyRange(minPort: int, maxPort: int)
    ensures EvenMin(minPort) > EvenMax(maxPort) <==> forall port :: !InRange(minPort, maxPort, port)
  {
    forall port
      ensures InRange(minPort, maxPort, port)
         <==> port % 2 == 0 && EvenMin(minPort) <= port <= EvenMax(maxPort)
    {
      EvenLimits(minPort, maxPort, port);
    }
    EvenLimits(minPort, maxPort, EvenMin(minPort));
    hide InRange;
    if EvenMin(minPort) <= EvenMax(maxPort) {
      assert InRange(minPort, maxPort, EvenMin(minPort));
    }
  }
}
