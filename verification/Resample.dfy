/**
 What the resampler of internal/audio/resample.go computes, as a fixed function of the whole input
 stream: output j is the stream interpolated at position j * fromHz / toHz, the position kept as an
 exact fraction. The object that computes it chunk by chunk is in module Streaming.
 */
module Resample {
  import opened Common
  import opened Signal
  import opened Lagrange
  import opened Division
  import Lowpass

  const ORDER := 4
  const KEEP := 2 * ORDER - 1

  // ---- stateless specification -----------------------------------------------------------

  /** Samples around base, node k holding sample base + k. */
  ghost function Nodes(x: seq<int16>, base: int): int -> real {
    k => At(x, base + k) as real
  }

  /** Phase q / toHz past the node, for 0 <= q < toHz. */
  function Phase(q: int, toHz: int): real
    requires toHz > 0
  {
    q as real / toHz as real
  }

  ghost function Interpolant(x: seq<int16>, base: int, t: real): real {
    Blend(Nodes(x, base), -ORDER + 1, ORDER, t, ORDER)
  }

  /** Output j: interpolation of the stream at position j * fromHz / toHz. */
  ghost function OutputAt(x: seq<int16>, fromHz: int, toHz: int, j: int): int16
    requires toHz > 0
  {
    Clamp(Interpolant(x, j * fromHz / toHz, Phase(j * fromHz % toHz, toHz)))
  }

  /** Number of outputs n input samples allow: ceil((n - 4) * toHz / fromHz) beyond four samples. */
  function Count(n: nat, fromHz: int, toHz: int): nat
    requires fromHz > 0 && toHz > 0
  {
    if n <= ORDER then 0
    else
      DivNonNegative((n - ORDER) * toHz + fromHz - 1, fromHz);
      ((n - ORDER) * toHz + fromHz - 1) / fromHz
  }

  ghost function Resampled(x: seq<int16>, fromHz: int, toHz: int): seq<int16>
    requires fromHz > 0 && toHz > 0
  {
    seq(Count(|x|, fromHz, toHz), j => OutputAt(x, fromHz, toHz, j))
  }

  // ---- integer positions -----------------------------------------------------------------

  lemma BelowCeil(j: int, a: int, d: int)
    requires d > 0
    ensures j < (a + d - 1) / d <==> j * d < a
  {
    DivAtMost(a + d - 1, d, j);
    NextMultiple(j, d);
  }

  /** Output j is available exactly when its eight-sample window is. */
  lemma CountSpec(j: nat, n: nat, fromHz: int, toHz: int)
    requires fromHz > 0 && toHz > 0
    ensures j < Count(n, fromHz, toHz) <==> j * fromHz / toHz + ORDER < n
  {
    DivAtMost(j * fromHz, toHz, n - ORDER - 1);
    if n > ORDER {
      BelowCeil(j, (n - ORDER) * toHz, fromHz);
    } else {
      TimesMonotone(0, j, fromHz);
      TimesMonotone(n - ORDER, 0, toHz);
    }
  }

  lemma CountMonotone(m: nat, n: nat, fromHz: int, toHz: int)
    requires fromHz > 0 && toHz > 0 && m <= n
    ensures Count(m, fromHz, toHz) <= Count(n, fromHz, toHz)
  {
    CountSpec(Count(n, fromHz, toHz), m, fromHz, toHz);
    CountSpec(Count(n, fromHz, toHz), n, fromHz, toHz);
  }

  // ---- consequences of the specification -------------------------------------------------

  /** Later input never changes an output that was already due. */
  lemma ResampledPrefix(x: seq<int16>, y: seq<int16>, fromHz: int, toHz: int)
    requires fromHz > 0 && toHz > 0
    ensures Resampled(x, fromHz, toHz) <= Resampled(x + y, fromHz, toHz)
  {
    CountMonotone(|x|, |x + y|, fromHz, toHz);
    forall j | 0 <= j < Count(|x|, fromHz, toHz)
      ensures OutputAt(x, fromHz, toHz, j) == OutputAt(x + y, fromHz, toHz, j)
    {
      OutputPrefix(x, y, fromHz, toHz, j);
    }
  }

  lemma OutputPrefix(x: seq<int16>, y: seq<int16>, fromHz: int, toHz: int, j: nat)
    requires fromHz > 0 && toHz > 0 && j < Count(|x|, fromHz, toHz)
    ensures OutputAt(x, fromHz, toHz, j) == OutputAt(x + y, fromHz, toHz, j)
  {
    CountSpec(j, |x|, fromHz, toHz);
    hide Count;
    var base := j * fromHz / toHz;
    forall k | -3 <= k <= 4
      ensures Nodes(x, base)(k) == Nodes(x + y, base)(k)
    {
      assert At(x + y, base + k) == At(x, base + k);
    }
    hide At, Clamp;
    BlendSame(Nodes(x, base), Nodes(x + y, base), -3, 4, Phase(j * fromHz % toHz, toHz), 4);
  }

  /** Equal rates reproduce the input, but for the four samples of trailing context. */
  lemma IdentityRate(x: seq<int16>, hz: int)
    requires hz > 0
    ensures Resampled(x, hz, hz) == x[..if |x| <= 4 then 0 else |x| - 4]
  {
    var n := if |x| <= 4 then 0 else |x| - 4;
    assert Count(|x|, hz, hz) == n by {
      if |x| > 4 {
        NextMultiple(n, hz);
        DivUnique(n * hz + hz - 1, hz, n);
      }
    }
    forall j | 0 <= j < n
      ensures OutputAt(x, hz, hz, j) == x[j]
    {
      IdentityOutput(x, hz, j);
    }
  }

  lemma PhaseZero(d: int)
    requires d > 0
    ensures Phase(0, d) == 0.0
  {
  }

  lemma IdentityOutput(x: seq<int16>, hz: int, j: nat)
    requires hz > 0 && j < |x|
    ensures OutputAt(x, hz, hz, j) == x[j]
  {
    NextMultiple(j, hz);
    DivUnique(j * hz, hz, j);
    hide *;
    NodeReproduced(x, j, hz);
    OutputIs(x, hz, hz, j, j * hz);
  }

  lemma OutputIs(x: seq<int16>, fromHz: int, toHz: int, j: int, q: int)
    requires toHz > 0 && q == j * fromHz
    ensures OutputAt(x, fromHz, toHz, j) == Clamp(Interpolant(x, q / toHz, Phase(q % toHz, toHz)))
  {
  }

  /** On a sample position, interpolation returns the sample. */
  lemma NodeReproduced(x: seq<int16>, j: nat, d: int)
    requires d > 0 && j < |x|
    ensures Clamp(Interpolant(x, j, Phase(0, d))) == x[j]
  {
    PhaseZero(d);
    hide Blend, Clamp, Phase;
    var f := Nodes(x, j);
    PicksNodeZero(f, 4);
    assert f(0) == At(x, j + 0) as real;
    ClampOfSample(x[j]);
  }

  lemma {:induction false} PicksNodeZero(f: int -> real, hi: int)
    requires -4 <= hi <= 4
    ensures Blend(f, -3, 4, 0.0, hi) == if hi >= 0 then f(0) else 0.0
    decreases hi + 4
  {
    if hi < -3 {
    } else {
      PicksNodeZero(f, hi - 1);
      WeightAtZero(-3, 4, hi);
      hide Weight;
    }
  }

  lemma PositionIsBasePlusPhase(q: int, d: int)
    requires d > 0
    ensures (q / d) as real + Phase(q % d, d) == q as real / d as real
  {
    var b, r := q / d, q % d;
    assert q == b * d + r;
    Lowpass.Product(b, d);
    SplitQuotient(b as real, d as real, r as real, q as real);
  }

  lemma SplitQuotient(b: real, d: real, r: real, q: real)
    requires d > 0.0 && q == b * d + r
    ensures b + r / d == q / d
  {
    assert (b * d) / d == b;
    Lowpass.DivideSum(b * d, r, d);
  }

  /** Where the window samples a polynomial of degree below eight, the output is its value there. */
  lemma PolynomialReproduced(x: seq<int16>, fromHz: int, toHz: int, j: nat, cs: seq<real>)
    requires toHz > 0 && |cs| <= 8
    requires forall i :: j * fromHz / toHz - 3 <= i <= j * fromHz / toHz + 4 ==> At(x, i) as real == Eval(cs, i as real)
    ensures OutputAt(x, fromHz, toHz, j) == Clamp(Eval(cs, (j * fromHz) as real / toHz as real))
  {
    hide Eval, Blend, Clamp, At;
    var q := j * fromHz;
    var base, t := q / toHz, Phase(q % toHz, toHz);
    forall k | -3 <= k <= 4
      ensures Nodes(x, base)(k) == Sampled(cs)(k + base)
    {
      assert Nodes(x, base)(k) == At(x, base + k) as real;
    }
    BlendShift(Sampled(cs), Nodes(x, base), -3, 4, t, base, 4);
    Exactness(cs, base - 3, base + 4, t + base as real);
    PositionIsBasePlusPhase(q, toHz);
  }

  /** A constant stretch covering the window comes out as the constant. */
  lemma ConstantReproduced(x: seq<int16>, fromHz: int, toHz: int, j: nat, c: int16)
    requires toHz > 0
    requires forall i :: j * fromHz / toHz - 3 <= i <= j * fromHz / toHz + 4 ==> At(x, i) == c
    ensures OutputAt(x, fromHz, toHz, j) == c
  {
    var cs := [c as real];
    assert forall y: real :: Eval(cs, y) == c as real by {
      assert cs[1..] == [];
    }
    PolynomialReproduced(x, fromHz, toHz, j, cs);
    ClampOfSample(c);
  }

  // ---- with the anti-aliasing filter in front --------------------------------------------

  ghost function Filtered(coeffs: Option<seq<real>>, x: seq<int16>): seq<int16> {
    match coeffs
    case None => x
    case Some(taps) => Lowpass.Fir(taps, x)
  }

  /** What the whole resampler turns a stream into. */
  ghost function Converted(coeffs: Option<seq<real>>, x: seq<int16>, fromHz: int, toHz: int): seq<int16>
    requires fromHz > 0 && toHz > 0
  {
    Resampled(Filtered(coeffs, x), fromHz, toHz)
  }

  lemma FilteredPrefix(coeffs: Option<seq<real>>, x: seq<int16>, y: seq<int16>)
    ensures Filtered(coeffs, x) <= Filtered(coeffs, x + y) && |Filtered(coeffs, x)| == |x|
  {
    if coeffs.Some? {
      Lowpass.FirPrefix(coeffs.value, x, y);
    }
  }

  // ---- between the samples ---------------------------------------------------------------

  /** What a sample k past the base contributes at phase t. */
  function Share(k: int, t: real, sample: int16): real {
    if -3 <= k <= 4 then Weight(-3, 4, k, t) * sample as real else 0.0
  }

  /** The contributions of all samples of the stream, summed sample by sample. */
  ghost function Spread(x: seq<int16>, base: int, t: real): real {
    if x == [] then 0.0
    else Spread(x[..|x| - 1], base, t) + Share(|x| - 1 - base, t, x[|x| - 1])
  }

  lemma TermAt(x: seq<int16>, base: int, t: real, k: int)
    ensures Term(Nodes(x, base), -3, 4, t, k) == Weight(-3, 4, k, t) * At(x, base + k) as real
    ensures x == [] ==> Term(Nodes(x, base), -3, 4, t, k) == 0.0
  {
    hide Weight;
  }

  lemma {:induction false} BlendOfNothing(base: int, t: real, hi: int)
    ensures Blend(Nodes([], base), -3, 4, t, hi) == 0.0
    decreases hi + 4
  {
    if hi < -3 {
    } else {
      BlendOfNothing(base, t, hi - 1);
      TermAt([], base, t, hi);
      hide Term, Nodes;
    }
  }

  lemma {:induction false} BlendAddsSample(x: seq<int16>, sample: int16, base: int, t: real, hi: int)
    requires hi <= 4
    ensures Blend(Nodes(x + [sample], base), -3, 4, t, hi)
         == Blend(Nodes(x, base), -3, 4, t, hi)
            + if |x| - base <= hi then Share(|x| - base, t, sample) else 0.0
    ensures |x| - base > 4 ==> Share(|x| - base, t, sample) == 0.0
    decreases hi + 4
  {
    if hi < -3 {
    } else {
      BlendAddsSample(x, sample, base, t, hi - 1);
      TermOfLonger(x, sample, base, t, hi);
      hide Term, Share, Nodes;
    }
  }

  lemma TermOfLonger(x: seq<int16>, sample: int16, base: int, t: real, k: int)
    requires -3 <= k <= 4
    ensures Term(Nodes(x + [sample], base), -3, 4, t, k)
         == Term(Nodes(x, base), -3, 4, t, k)
            + if |x| - base == k then Share(k, t, sample) else 0.0
  {
    TermAt(x, base, t, k);
    TermAt(x + [sample], base, t, k);
    hide Weight, Term, Nodes;
    assert At(x + [sample], base + k) == if base + k == |x| then sample else At(x, base + k);
    if |x| - base == k {
      assert At(x, base + k) == 0;
    }
  }

  /** Interpolation is the sum of what the single samples contribute; there is none before the start. */
  lemma {:induction false} InterpolantIsSpread(x: seq<int16>, base: int, t: real)
    ensures Interpolant(x, base, t) == Spread(x, base, t)
  {
    hide Share, Nodes;
    if x == [] {
      BlendOfNothing(base, t, 4);
    } else {
      var n := |x| - 1;
      InterpolantIsSpread(x[..n], base, t);
      BlendAddsSample(x[..n], x[n], base, t, 4);
      SplitLast([], x);
    }
  }

  /** The conversion interpolates what the taps make of the stream, sample by sample. */
  lemma FilterThenInterpolate(taps: seq<real>, x: seq<int16>, fromHz: int, toHz: int, j: nat)
    requires fromHz > 0 && toHz > 0 && j < Count(|x|, fromHz, toHz)
    ensures |Converted(None, x, fromHz, toHz)| == |Converted(Some(taps), x, fromHz, toHz)| == Count(|x|, fromHz, toHz)
    ensures Converted(None, x, fromHz, toHz)[j]
         == Clamp(Spread(x, j * fromHz / toHz, Phase(j * fromHz % toHz, toHz)))
    ensures Converted(Some(taps), x, fromHz, toHz)[j]
         == Clamp(Spread(Lowpass.Fir(taps, x), j * fromHz / toHz, Phase(j * fromHz % toHz, toHz)))
    ensures forall g :: 0 <= g < |x| ==> Lowpass.Fir(taps, x)[g] == Clamp(Lowpass.Superposed(taps, x, g))
  {
    var base, t := j * fromHz / toHz, Phase(j * fromHz % toHz, toHz);
    ConvertedCount(None, x, fromHz, toHz);
    ConvertedCount(Some(taps), x, fromHz, toHz);
    forall g | 0 <= g < |x|
      ensures Lowpass.Fir(taps, x)[g] == Clamp(Lowpass.Superposed(taps, x, g))
    {
      Lowpass.FirIsSuperposition(taps, x, g);
      hide Clamp, Lowpass.FirAt;
    }
    hide Clamp, Interpolant, Lowpass.Fir, Phase;
    InterpolantIsSpread(x, base, t);
    InterpolantIsSpread(Lowpass.Fir(taps, x), base, t);
  }

  lemma ShareOfSilence(k: int, t: real)
    ensures Share(k, t, 0) == 0.0
  {
    hide Weight;
  }

  lemma {:induction false} SpreadImpulse(x: seq<int16>, p: nat, h: int16, base: int, t: real)
    requires Lowpass.IsImpulse(x, p, h)
    ensures Spread(x, base, t) == if p < |x| then Share(p - base, t, h) else 0.0
  {
    if x == [] {
    } else {
      ShareOfSilence(|x| - 1 - base, t);
      hide Share;
      SpreadImpulse(x[..|x| - 1], p, h, base, t);
    }
  }

  /** Without a filter a single sample comes out as the interpolation weights around it. */
  lemma ImpulseInterpolated(x: seq<int16>, p: nat, h: int16, fromHz: int, toHz: int, j: nat)
    requires fromHz > 0 && toHz > 0 && j < Count(|x|, fromHz, toHz) && p < |x| && Lowpass.IsImpulse(x, p, h)
    ensures |Converted(None, x, fromHz, toHz)| == Count(|x|, fromHz, toHz)
    ensures Converted(None, x, fromHz, toHz)[j]
         == Clamp(Share(p - j * fromHz / toHz, Phase(j * fromHz % toHz, toHz), h))
  {
    hide *;
    FilterThenInterpolate([], x, fromHz, toHz, j);
    SpreadImpulse(x, p, h, j * fromHz / toHz, Phase(j * fromHz % toHz, toHz));
  }

  /** An output that falls on sample g is that sample, or what the taps make of the stream there. */
  lemma OnSample(taps: seq<real>, x: seq<int16>, fromHz: int, toHz: int, j: nat, g: nat)
    requires fromHz > 0 && toHz > 0 && j < Count(|x|, fromHz, toHz) && j * fromHz == g * toHz
    ensures g < |x|
    ensures |Converted(None, x, fromHz, toHz)| == |Converted(Some(taps), x, fromHz, toHz)| == Count(|x|, fromHz, toHz)
    ensures Converted(None, x, fromHz, toHz)[j] == x[g]
    ensures Converted(Some(taps), x, fromHz, toHz)[j] == Clamp(Lowpass.Superposed(taps, x, g))
  {
    hide *;
    DueSample(x, fromHz, toHz, j, g);
    ConvertedOnSample(None, x, fromHz, toHz, j, g);
    ConvertedOnSample(Some(taps), x, fromHz, toHz, j, g);
    FilteredSample(taps, x, g);
  }

  lemma DueSample(x: seq<int16>, fromHz: int, toHz: int, j: nat, g: nat)
    requires fromHz > 0 && toHz > 0 && j < Count(|x|, fromHz, toHz) && j * fromHz == g * toHz
    ensures g < |x|
  {
    hide Count;
    DivUnique(j * fromHz, toHz, g);
    CountSpec(j, |x|, fromHz, toHz);
  }

  lemma ConvertedOnSample(coeffs: Option<seq<real>>, x: seq<int16>, fromHz: int, toHz: int, j: nat, g: nat)
    requires fromHz > 0 && toHz > 0 && j < Count(|x|, fromHz, toHz) && j * fromHz == g * toHz && g < |x|
    ensures |Converted(coeffs, x, fromHz, toHz)| == Count(|x|, fromHz, toHz) && g < |Filtered(coeffs, x)|
    ensures Converted(coeffs, x, fromHz, toHz)[j] == Filtered(coeffs, x)[g]
  {
    hide Filtered, OutputAt, Count;
    FilteredPrefix(coeffs, x, []);
    OutputOnSample(Filtered(coeffs, x), fromHz, toHz, j, g);
  }

  lemma FilteredSample(taps: seq<real>, x: seq<int16>, g: nat)
    requires g < |x|
    ensures Filtered(None, x) == x && g < |Filtered(Some(taps), x)|
    ensures Filtered(Some(taps), x)[g] == Clamp(Lowpass.Superposed(taps, x, g))
  {
    Lowpass.FirIsSuperposition(taps, x, g);
    hide Clamp, Lowpass.FirAt, Lowpass.Superposed;
  }

  lemma OutputOnSample(x: seq<int16>, fromHz: int, toHz: int, j: nat, g: nat)
    requires fromHz > 0 && toHz > 0 && g < |x| && j * fromHz == g * toHz
    ensures OutputAt(x, fromHz, toHz, j) == x[g]
  {
    DivUnique(j * fromHz, toHz, g);
    hide *;
    NodeReproduced(x, g, toHz);
    OutputIs(x, fromHz, toHz, j, j * fromHz);
  }

  /** Where outputs fall on samples, a single sample comes out as the taps of the filter. */
  lemma ImpulseConverted(taps: seq<real>, x: seq<int16>, p: nat, h: int16, fromHz: int, toHz: int, j: nat, g: nat)
    requires fromHz > 0 && toHz > 0 && j < Count(|x|, fromHz, toHz) && j * fromHz == g * toHz
    requires p < |x| && Lowpass.IsImpulse(x, p, h)
    ensures |Converted(Some(taps), x, fromHz, toHz)| == Count(|x|, fromHz, toHz)
    ensures Converted(Some(taps), x, fromHz, toHz)[j]
         == Clamp(if 0 <= g - p < |taps| then taps[g - p] * h as real else 0.0)
  {
    hide Clamp, Lowpass.IsImpulse;
    OnSample(taps, x, fromHz, toHz, j, g);
    Lowpass.ImpulseResponse(taps, x, p, h, g);
  }

  /** The highest input frequency comes out scaled by the alternating sum of the taps. */
  lemma AlternatingConverted(taps: seq<real>, x: seq<int16>, c: int16, fromHz: int, toHz: int, j: nat, g: nat)
    requires fromHz > 0 && toHz > 0 && j < Count(|x|, fromHz, toHz) && j * fromHz == g * toHz
    requires |taps| - 1 <= g && Lowpass.IsAlternating(x, c)
    ensures |Converted(Some(taps), x, fromHz, toHz)| == Count(|x|, fromHz, toHz)
    ensures Converted(Some(taps), x, fromHz, toHz)[j]
         == Clamp(Lowpass.Scaled(Lowpass.Alternated(g, c as real), Lowpass.AlternatingTotal(taps, |taps|)))
  {
    hide *;
    OnSample(taps, x, fromHz, toHz, j, g);
    Lowpass.AlternatingFiltered(taps, x, g, c);
    Lowpass.FirIsSuperposition(taps, x, g);
  }

  /** The number of outputs is fixed by the number of inputs alone. */
  lemma ConvertedCount(coeffs: Option<seq<real>>, x: seq<int16>, fromHz: int, toHz: int)
    requires fromHz > 0 && toHz > 0
    ensures |Converted(coeffs, x, fromHz, toHz)| == Count(|x|, fromHz, toHz)
  {
    FilteredPrefix(coeffs, x, []);
  }

  lemma ConvertedPrefix(coeffs: Option<seq<real>>, x: seq<int16>, y: seq<int16>, fromHz: int, toHz: int)
    requires fromHz > 0 && toHz > 0
    ensures Converted(coeffs, x, fromHz, toHz) <= Converted(coeffs, x + y, fromHz, toHz)
  {
    var a, b := Filtered(coeffs, x), Filtered(coeffs, x + y);
    FilteredPrefix(coeffs, x, y);
    assert b == a + b[|a|..];
    ResampledPrefix(a, b[|a|..], fromHz, toHz);
  }

  /** A constant stream comes out constant once the filter and the window are inside it. */
  lemma ConstantStream(coeffs: Option<seq<real>>, x: seq<int16>, fromHz: int, toHz: int, j: nat, c: int16)
    requires fromHz > 0 && toHz > 0 && j < Count(|x|, fromHz, toHz)
    requires forall i :: 0 <= i < |x| ==> x[i] == c
    requires coeffs.Some? ==> Lowpass.Total(coeffs.value) == 1.0
    requires j * fromHz / toHz >= 3 + if coeffs.Some? && coeffs.value != [] then |coeffs.value| - 1 else 0
    ensures Converted(coeffs, x, fromHz, toHz)[j] == c
  {
    var y, base := Filtered(coeffs, x), j * fromHz / toHz;
    FilteredPrefix(coeffs, x, []);
    ConvertedCount(coeffs, x, fromHz, toHz);
    CountSpec(j, |x|, fromHz, toHz);
    forall i | base - 3 <= i <= base + 4
      ensures At(y, i) == c
    {
      if coeffs.Some? {
        Lowpass.UnityGain(coeffs.value, x, i, c);
      }
    }
    ConstantReproduced(y, fromHz, toHz, j, c);
  }

  /** Silence stays silence, warm-up included, whatever the taps. */
  lemma SilenceConverted(coeffs: Option<seq<real>>, x: seq<int16>, fromHz: int, toHz: int, j: nat)
    requires fromHz > 0 && toHz > 0 && j < |Converted(coeffs, x, fromHz, toHz)|
    requires forall i :: 0 <= i < |x| ==> x[i] == 0
    ensures Converted(coeffs, x, fromHz, toHz)[j] == 0
  {
    var y := Filtered(coeffs, x);
    FilteredPrefix(coeffs, x, []);
    forall i: int
      ensures At(y, i) == 0
    {
      if coeffs.Some? && 0 <= i < |x| {
        Lowpass.DotConstant(coeffs.value, x, i, 0, |coeffs.value|);
        ClampOfSample(0);
      }
    }
    ConstantReproduced(y, fromHz, toHz, j, 0);
  }
}
