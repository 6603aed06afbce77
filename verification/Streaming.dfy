/** The Resampler object of internal/audio/resample.go, refining the stateless specification. */
module Streaming {
  import opened Common
  import opened Signal
  import opened Lagrange
  import opened Division
  import opened Resample
  import L = Lowpass

  /** Where the window starts and how far the phase is into it, given the outputs so far. */
  ghost predicate InPhase(off: int, phase: int, j: int, fromHz: int, toHz: int) {
    phase >= 0 && off * toHz + phase == j * fromHz
  }

  lemma PhasePosition(off: int, phase: int, j: int, fromHz: int, toHz: int)
    requires toHz > 0 && InPhase(off, phase, j, fromHz, toHz)
    ensures j * fromHz / toHz == off + phase / toHz && j * fromHz % toHz == phase % toHz
    ensures phase / toHz >= 0
  {
    DivShift(off, phase, toHz);
    DivNonNegative(phase, toHz);
  }

  /** The loop guard holds exactly while an output is still due. */
  lemma GuardIsCount(off: int, phase: int, j: nat, n: nat, fromHz: int, toHz: int)
    requires fromHz > 0 && toHz > 0 && InPhase(off, phase, j, fromHz, toHz)
    ensures phase / toHz <= n - off - 1 - ORDER <==> j < Count(n, fromHz, toHz)
  {
    PhasePosition(off, phase, j, fromHz, toHz);
    CountSpec(j, n, fromHz, toHz);
  }

  lemma PhaseAdvances(off: int, phase: int, j: int, fromHz: int, toHz: int)
    requires fromHz > 0 && InPhase(off, phase, j, fromHz, toHz)
    ensures InPhase(off, phase + fromHz, j + 1, fromHz, toHz)
  {
    NextMultiple(j, fromHz);
  }

  lemma PhaseRebases(off: int, phase: int, j: int, fromHz: int, toHz: int, cut: int)
    requires toHz > 0 && InPhase(off, phase, j, fromHz, toHz) && phase / toHz >= cut
    ensures InPhase(off + cut, phase - cut * toHz, j, fromHz, toHz)
  {
    assert (off + cut) * toHz == off * toHz + cut * toHz;
    DivBounds(phase, toHz);
    TimesMonotone(cut, phase / toHz, toHz);
  }

  /** Once samples have been discarded the phase is at least three samples into the window. */
  lemma PhaseAfterDiscard(off: int, phase: int, n: nat, fromHz: int, toHz: int)
    requires fromHz > 0 && toHz > 0 && InPhase(off, phase, Count(n, fromHz, toHz), fromHz, toHz)
    ensures phase / toHz >= n - off - ORDER
  {
    GuardIsCount(off, phase, Count(n, fromHz, toHz), n, fromHz, toHz);
  }

  class Resampler {
    const fromHz: int
    const toHz: int
    const lp: L.Lowpass?
    var history: seq<int16>
    /** frac, as a numerator over toHz. */
    var phase: int
    /** Every input sample since construction or Reset. */
    ghost var stream: seq<int16>

    ghost function Parts(): set<object> {
      if lp == null then {} else {lp, lp.delay}
    }

    ghost function Coeffs(): Option<seq<real>> {
      if lp == null then None else Some(lp.taps)
    }

    ghost predicate Valid()
      reads this, Parts()
    {
      && fromHz > 0 && toHz > 0
      && (lp != null ==> lp.Valid() && lp.stream == stream)
      && Tracks(Filtered(Coeffs(), stream))
    }

    /** History is the last min(7, consumed) samples, and off + frac is the next output position. */
    ghost predicate Tracks(x: seq<int16>)
      requires fromHz > 0 && toHz > 0
      reads this
    {
      && |history| == (if |x| < KEEP then |x| else KEEP)
      && history == x[|x| - |history|..]
      && InPhase(|x| - |history|, phase, Count(|x|, fromHz, toHz), fromHz, toHz)
    }

    constructor (fromHz: int, toHz: int, antiAlias: bool, trig: L.Trig)
      requires fromHz > 0 && toHz > 0 && trig.Valid()
      requires toHz < fromHz ==> L.RawGain(fromHz, toHz, trig) != 0.0
      ensures Valid() && stream == [] && this.fromHz == fromHz && this.toHz == toHz && fresh(Parts())
      ensures Coeffs().Some? <==> toHz < fromHz && antiAlias
      ensures Coeffs().Some? ==>
        && L.LinearPhase(Coeffs().value) && L.Total(Coeffs().value) == 1.0
        && L.IsDesign(Coeffs().value, fromHz, toHz, trig)
    {
      var filter := L.NewLowpass(fromHz, toHz, trig);
      if !antiAlias {
        filter := null;
      }
      this.fromHz, this.toHz := fromHz, toHz;
      lp := filter;
      history, phase := [], 0;
      stream := [];
      new;
      FilteredPrefix(Coeffs(), [], []);
    }

    method Process(dst: seq<int16>, input: seq<int16>) returns (out: seq<int16>)
      requires Valid()
      modifies this, Parts()
      ensures Valid() && stream == old(stream) + input
      ensures Emits(dst, out, Converted(Coeffs(), old(stream), fromHz, toHz), Converted(Coeffs(), stream, fromHz, toHz))
    {
      hide L.Lowpass.Valid, Filtered, Resampled, InPhase, Count;
      ghost var coeffs := Coeffs();
      if |input| == 0 {
        assert stream + input == stream;
        EmitNothing(dst, Converted(coeffs, stream, fromHz, toHz));
        return dst;
      }
      ghost var x0 := Filtered(coeffs, stream);
      var limited := Limit(input, stream);
      assert Tracks(x0);
      hide Coeffs;
      out := Interpolate(dst, limited, x0);
      stream := stream + input;
    }

    /** Band-limit before the rate changes; without a filter the samples pass through. */
    method Limit(input: seq<int16>, ghost x: seq<int16>) returns (limited: seq<int16>)
      requires lp != null ==> lp.Valid() && lp.stream == x
      modifies Parts()
      ensures lp != null ==> lp.Valid() && lp.stream == x + input
      ensures Filtered(Coeffs(), x) + limited == Filtered(Coeffs(), x + input)
    {
      limited := input;
      if lp != null {
        limited := lp.Process(input);
      }
    }

    method Reset()
      requires Valid()
      modifies this, Parts()
      ensures Valid() && stream == []
    {
      history, phase := [], 0;
      stream := [];
      if lp != null {
        lp.Reset();
      }
      FilteredPrefix(Coeffs(), [], []);
    }

    /** The interpolation loop and the rebasing of history and phase. */
    method Interpolate(dst: seq<int16>, input: seq<int16>, ghost x0: seq<int16>) returns (out: seq<int16>)
      requires fromHz > 0 && toHz > 0 && Tracks(x0)
      modifies this`history, this`phase
      ensures Tracks(x0 + input)
      ensures Emits(dst, out, Resampled(x0, fromHz, toHz), Resampled(x0 + input, fromHz, toHz))
    {
      hide Resampled, InPhase, Count;
      var window := history + input;
      ghost var x, off := x0 + input, |x0| - |history|;
      ResampledPrefix(x0, input, fromHz, toHz);
      ResampledLength(x0, fromHz, toHz);
      CountMonotone(|x0|, |x|, fromHz, toHz);
      PhaseAfterDiscard(off, phase, |x0|, fromHz, toHz);
      assert window == x[off..];
      out := EmitReady(dst, window, x, off, Count(|x0|, fromHz, toHz));
      PhaseAfterDiscard(off, phase, |x|, fromHz, toHz);
      PhasePosition(off, phase, Count(|x|, fromHz, toHz), fromHz, toHz);
      var keep := 2 * ORDER - 1;
      if keep > |window| {
        keep := |window|;
      }
      PhaseRebases(off, phase, Count(|x|, fromHz, toHz), fromHz, toHz, |window| - keep);
      phase := phase - (|window| - keep) * toHz;
      history := window[|window| - keep..];
    }

    method EmitReady(dst: seq<int16>, window: seq<int16>, ghost x: seq<int16>, ghost off: nat, ghost start: nat)
      returns (out: seq<int16>)
      requires fromHz > 0 && toHz > 0 && off <= |x| && window == x[off..]
      requires InPhase(off, phase, start, fromHz, toHz) && start <= Count(|x|, fromHz, toHz)
      requires off > 0 ==> phase / toHz >= ORDER - 1
      modifies this`phase
      ensures InPhase(off, phase, Count(|x|, fromHz, toHz), fromHz, toHz)
      ensures out == dst + Resampled(x, fromHz, toHz)[start..]
    {
      ghost var all := Resampled(x, fromHz, toHz);
      ghost var j := start;
      var lastValidBase := |window| - 1 - ORDER;
      out := dst;
      GuardIsCount(off, phase, j, |x|, fromHz, toHz);
      while phase / toHz <= lastValidBase
        invariant start <= j <= |all| && InPhase(off, phase, j, fromHz, toHz)
        invariant phase / toHz <= lastValidBase <==> j < |all|
        invariant off > 0 ==> phase / toHz >= ORDER - 1
        invariant out == dst + all[start..j]
        decreases |all| - j
      {
        hide *;
        var base := phase / toHz;
        PhasePosition(off, phase, j, fromHz, toHz);
        var acc := Weigh(window, base, Phase(phase % toHz, toHz), x, off);
        ResampledAt(x, fromHz, toHz, j, off + base, phase % toHz);
        out := out + [Clamp(acc)];
        PhaseAdvances(off, phase, j, fromHz, toHz);
        StillPast(phase, fromHz, toHz, ORDER - 1);
        phase := phase + fromHz;
        j := j + 1;
        GuardIsCount(off, phase, j, |x|, fromHz, toHz);
        ResampledLength(x, fromHz, toHz);
      }
    }

    /** One output: the eight-node weighted sum, with zeros for indices outside the window. */
    method Weigh(window: seq<int16>, bi: int, t: real, ghost x: seq<int16>, ghost off: nat) returns (acc: real)
      requires off <= |x| && window == x[off..]
      requires 0 <= bi <= |window| - 1 - ORDER && (off > 0 ==> bi >= ORDER - 1)
      ensures acc == Interpolant(x, off + bi, t)
    {
      ghost var f := Nodes(x, off + bi);
      acc := 0.0;
      var k := -ORDER + 1;
      while k <= ORDER
        invariant -ORDER + 1 <= k <= ORDER + 1
        invariant acc == Blend(f, -ORDER + 1, ORDER, t, k - 1)
      {
        var idx := bi + k;
        var xv: int16 := 0;
        if idx >= 0 && idx < |window| {
          xv := window[idx];
        }
        assert xv == At(x, off + bi + k);
        hide *;
        var weight := LagrangeWeight(k, t, ORDER);
        BlendNext(x, off + bi, t, k, weight, xv);
        acc := acc + weight * xv as real;
        k := k + 1;
      }
    }
  }

  lemma BlendNext(x: seq<int16>, base: int, t: real, k: int, weight: real, xv: int16)
    requires -ORDER < k <= ORDER && weight == Weight(-ORDER + 1, ORDER, k, t) && xv == At(x, base + k)
    ensures Blend(Nodes(x, base), -ORDER + 1, ORDER, t, k)
         == Blend(Nodes(x, base), -ORDER + 1, ORDER, t, k - 1) + weight * xv as real
  {
    hide Weight, At;
  }

  lemma ResampledLength(x: seq<int16>, fromHz: int, toHz: int)
    requires fromHz > 0 && toHz > 0
    ensures |Resampled(x, fromHz, toHz)| == Count(|x|, fromHz, toHz)
  {
  }

  lemma ResampledAt(x: seq<int16>, fromHz: int, toHz: int, j: nat, base: int, rest: int)
    requires fromHz > 0 && toHz > 0 && j < |Resampled(x, fromHz, toHz)|
    requires base == j * fromHz / toHz && rest == j * fromHz % toHz
    ensures Resampled(x, fromHz, toHz)[j] == Clamp(Interpolant(x, base, Phase(rest, toHz)))
  {
  }

  lemma StillPast(phase: int, step: int, d: int, m: int)
    requires d > 0 && step >= 0
    ensures phase / d >= m ==> (phase + step) / d >= m
  {
    DivAtMost(phase, d, m - 1);
    DivAtMost(phase + step, d, m - 1);
  }
}
