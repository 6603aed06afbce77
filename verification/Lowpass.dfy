/**
 The anti-aliasing filter of internal/audio/lowpass.go: the folded loop over a carried delay line
 computes the direct convolution of the whole stream. Arithmetic is over the reals.
 */
module Lowpass {
  import opened Common
  import opened Signal

  // ---- direct convolution: the specification ---------------------------------------------

  ghost function Tap(taps: seq<real>, x: seq<int16>, g: int, k: int): real
    requires 0 <= k < |taps|
  {
    taps[k] * At(x, g - k) as real
  }

  /** Contribution of the taps lo .. hi-1 to output g. */
  ghost function Dot(taps: seq<real>, x: seq<int16>, g: int, lo: int, hi: int): real
    requires 0 <= lo <= hi <= |taps|
    decreases hi - lo
  {
    if lo == hi then 0.0 else Dot(taps, x, g, lo, hi - 1) + Tap(taps, x, g, hi - 1)
  }

  ghost function FirAt(taps: seq<real>, x: seq<int16>, g: int): int16 {
    Clamp(Dot(taps, x, g, 0, |taps|))
  }

  /** One output per input sample. */
  ghost function Fir(taps: seq<real>, x: seq<int16>): seq<int16> {
    seq(|x|, g => FirAt(taps, x, g))
  }

  lemma {:induction false} DotPeelFirst(taps: seq<real>, x: seq<int16>, g: int, lo: int, hi: int)
    requires 0 <= lo < hi <= |taps|
    ensures Dot(taps, x, g, lo, hi) == Tap(taps, x, g, lo) + Dot(taps, x, g, lo + 1, hi)
    decreases hi
  {
    hide Tap;
    if lo + 1 < hi {
      DotPeelFirst(taps, x, g, lo, hi - 1);
    } else {
      assert Dot(taps, x, g, lo, lo) == 0.0;
    }
  }

  lemma {:induction false} DotSplit(taps: seq<real>, x: seq<int16>, g: int, lo: int, mid: int, hi: int)
    requires 0 <= lo <= mid <= hi <= |taps|
    ensures Dot(taps, x, g, lo, hi) == Dot(taps, x, g, lo, mid) + Dot(taps, x, g, mid, hi)
    decreases hi
  {
    hide Tap;
    if mid >= hi {
    } else {
      DotSplit(taps, x, g, lo, mid, hi - 1);
    }
  }

  /** An output only depends on the stream up to its own index. */
  lemma {:induction false} DotPrefix(taps: seq<real>, x: seq<int16>, y: seq<int16>, g: int, lo: int, hi: int)
    requires 0 <= lo <= hi <= |taps| && g < |x|
    ensures Dot(taps, x + y, g, lo, hi) == Dot(taps, x, g, lo, hi)
    decreases hi
  {
    if lo >= hi {
    } else {
      DotPrefix(taps, x, y, g, lo, hi - 1);
      assert At(x + y, g - (hi - 1)) == At(x, g - (hi - 1));
    }
  }

  lemma FirPrefix(taps: seq<real>, x: seq<int16>, y: seq<int16>)
    ensures Fir(taps, x) <= Fir(taps, x + y)
    ensures |Fir(taps, x)| == |x|
  {
    forall g | 0 <= g < |x|
      ensures FirAt(taps, x + y, g) == FirAt(taps, x, g)
    {
      DotPrefix(taps, x, y, g, 0, |taps|);
    }
  }

  // ---- convolution as superposed impulse responses ---------------------------------------

  /** What a sample taken d samples ago contributes to the output. */
  function Response(taps: seq<real>, d: int, sample: int16): real {
    if 0 <= d < |taps| then taps[d] * sample as real else 0.0
  }

  /** The responses at g to every sample of the stream, summed sample by sample. */
  ghost function Superposed(taps: seq<real>, x: seq<int16>, g: int): real {
    if x == [] then 0.0
    else Superposed(taps, x[..|x| - 1], g) + Response(taps, g - (|x| - 1), x[|x| - 1])
  }

  lemma {:induction false} DotOfNothing(taps: seq<real>, g: int, hi: int)
    requires 0 <= hi <= |taps|
    ensures Dot(taps, [], g, 0, hi) == 0.0
    decreases hi
  {
    if hi <= 0 {
    } else {
      DotOfNothing(taps, g, hi - 1);
    }
  }

  /** A further sample adds its own response. */
  lemma {:induction false} DotAddsSample(taps: seq<real>, x: seq<int16>, sample: int16, g: int, hi: int)
    requires 0 <= hi <= |taps|
    ensures Dot(taps, x + [sample], g, 0, hi)
         == Dot(taps, x, g, 0, hi) + if g - |x| < hi then Response(taps, g - |x|, sample) else 0.0
    decreases hi
  {
    if hi <= 0 {
    } else {
      DotAddsSample(taps, x, sample, g, hi - 1);
      TapOfLonger(taps, x, sample, g, hi - 1);
      hide Tap, Response;
    }
  }

  lemma TapOfLonger(taps: seq<real>, x: seq<int16>, sample: int16, g: int, k: int)
    requires 0 <= k < |taps|
    ensures Tap(taps, x + [sample], g, k)
         == Tap(taps, x, g, k) + if g - |x| == k then Response(taps, k, sample) else 0.0
  {
    assert At(x + [sample], g - k) == if g - k == |x| then sample else At(x, g - k);
  }

  /** Every output is the sum of the responses to the single samples, rounded and clamped. */
  lemma {:induction false} FirIsSuperposition(taps: seq<real>, x: seq<int16>, g: int)
    ensures Dot(taps, x, g, 0, |taps|) == Superposed(taps, x, g)
    ensures FirAt(taps, x, g) == Clamp(Superposed(taps, x, g))
  {
    hide Clamp;
    if x == [] {
      DotOfNothing(taps, g, |taps|);
    } else {
      var n := |x| - 1;
      FirIsSuperposition(taps, x[..n], g);
      DotAddsSample(taps, x[..n], x[n], g, |taps|);
      assert x == x[..n] + [x[n]];
    }
  }

  /** The one sample h at p, silence around it. */
  ghost predicate IsImpulse(x: seq<int16>, p: nat, h: int16) {
    forall i :: 0 <= i < |x| ==> x[i] == if i == p then h else 0
  }

  /** A single sample comes out as the taps, one a sample from where it stands. */
  lemma {:induction false} ImpulseResponse(taps: seq<real>, x: seq<int16>, p: nat, h: int16, g: int)
    requires IsImpulse(x, p, h)
    ensures Superposed(taps, x, g)
         == if p < |x| && 0 <= g - p < |taps| then taps[g - p] * h as real else 0.0
  {
    if x == [] {
    } else {
      ImpulseResponse(taps, x[..|x| - 1], p, h, g);
    }
  }

  /** The taps summed with alternating signs: what the filter leaves of the highest frequency. */
  ghost function AlternatingTotal(taps: seq<real>, n: nat): real
    requires n <= |taps|
  {
    if n == 0 then 0.0 else AlternatingTotal(taps, n - 1) + Alternated(n - 1, taps[n - 1])
  }

  function Alternated(i: int, v: real): real {
    if i % 2 == 0 then v else -v
  }

  /** c, -c, c, ...: the highest frequency the rate can carry. */
  ghost predicate IsAlternating(x: seq<int16>, c: int16) {
    forall i :: 0 <= i < |x| ==> x[i] as real == Alternated(i, c as real)
  }

  lemma {:induction false} DotAlternating(taps: seq<real>, x: seq<int16>, g: int, c: int16, hi: int)
    requires 0 <= hi <= |taps| && IsAlternating(x, c) && hi <= g + 1 <= |x|
    ensures Dot(taps, x, g, 0, hi) == Scaled(Alternated(g, c as real), AlternatingTotal(taps, hi))
    decreases hi
  {
    if hi <= 0 {
    } else {
      hide Alternated, IsAlternating, Tap, Scaled;
      TapAlternating(taps, x, g, c, hi - 1);
      ScaledSum(Alternated(g, c as real), AlternatingTotal(taps, hi - 1), Alternated(hi - 1, taps[hi - 1]));
      DotAlternating(taps, x, g, c, hi - 1);
    }
  }

  function Scaled(c: real, v: real): real {
    c * v
  }

  lemma ScaledSum(c: real, x: real, y: real)
    ensures Scaled(c, x + y) == Scaled(c, x) + Scaled(c, y)
  {
  }

  lemma TapAlternating(taps: seq<real>, x: seq<int16>, g: int, c: int16, k: int)
    requires IsAlternating(x, c) && 0 <= k <= g < |x| && k < |taps|
    ensures Tap(taps, x, g, k) == Scaled(Alternated(g, c as real), Alternated(k, taps[k]))
  {
    assert At(x, g - k) as real == Alternated(g - k, c as real);
    SignsMultiply(taps[k], c as real, g, k);
    hide IsAlternating, Scaled, Alternated, At;
  }

  lemma SignsMultiply(h: real, c: real, g: int, k: int)
    ensures h * Alternated(g - k, c) == Scaled(Alternated(g, c), Alternated(k, h))
  {
  }

  /** The fastest alternating stream comes out scaled by the alternating sum of the taps. */
  lemma AlternatingFiltered(taps: seq<real>, x: seq<int16>, g: int, c: int16)
    requires IsAlternating(x, c) && |taps| - 1 <= g < |x|
    ensures FirAt(taps, x, g) == Clamp(Scaled(Alternated(g, c as real), AlternatingTotal(taps, |taps|)))
  {
    hide *;
    DotAlternating(taps, x, g, c, |taps|);
    Lowpass.FirAtIs(taps, x, g, Scaled(Alternated(g, c as real), AlternatingTotal(taps, |taps|)));
  }

  // ---- symmetric, normalised taps --------------------------------------------------------

  ghost predicate Symmetric(taps: seq<real>) {
    forall k :: 0 <= k < |taps| ==> taps[k] == taps[|taps| - 1 - k]
  }

  ghost predicate LinearPhase(taps: seq<real>) {
    |taps| % 2 == 1 && |taps| >= 3 && Symmetric(taps)
  }

  function Total(xs: seq<real>): real {
    if xs == [] then 0.0 else Total(xs[..|xs| - 1]) + xs[|xs| - 1]
  }

  lemma {:induction false} TotalScaled(xs: seq<real>, ys: seq<real>, s: real)
    requires s != 0.0 && |xs| == |ys| && forall i :: 0 <= i < |xs| ==> ys[i] == xs[i] / s
    ensures Total(ys) == Total(xs) / s
  {
    if xs == [] {
    } else {
      TotalScaled(xs[..|xs| - 1], ys[..|ys| - 1], s);
      DivideSum(Total(xs[..|xs| - 1]), xs[|xs| - 1], s);
    }
  }

  lemma DivideSum(x: real, y: real, s: real)
    requires s != 0.0
    ensures (x + y) / s == x / s + y / s
  {
  }

  /** On a stretch of constant input, normalised taps return the constant. */
  lemma {:induction false} DotConstant(taps: seq<real>, x: seq<int16>, g: int, c: int16, hi: int)
    requires 0 <= hi <= |taps| && forall i :: g - hi < i <= g ==> At(x, i) == c
    ensures Dot(taps, x, g, 0, hi) == c as real * Total(taps[..hi])
    decreases hi
  {
    if hi <= 0 {
    } else {
      DotConstant(taps, x, g, c, hi - 1);
      assert taps[..hi][..hi - 1] == taps[..hi - 1];
      assert Total(taps[..hi]) == Total(taps[..hi - 1]) + taps[hi - 1];
      assert At(x, g - (hi - 1)) == c;
      TimesSum(c as real, Total(taps[..hi - 1]), taps[hi - 1]);
    }
  }

  lemma TimesSum(c: real, x: real, y: real)
    ensures c * (x + y) == c * x + y * c
  {
  }

  lemma UnityGain(taps: seq<real>, x: seq<int16>, g: int, c: int16)
    requires Total(taps) == 1.0 && forall i :: g - |taps| < i <= g ==> At(x, i) == c
    ensures FirAt(taps, x, g) == c
  {
    DotConstant(taps, x, g, c, |taps|);
    assert taps[..|taps|] == taps;
    ClampOfSample(c);
  }

  // ---- filter design ---------------------------------------------------------------------

  const CUTOFF_RATIO := 0.425
  const STOP_RATIO := 0.5
  const TRANSITION_WIDTH := 3.3
  const MIN_TAPS := 31
  const MAX_TAPS := 255

  function Ceil(v: real): int {
    -((-v).Floor)
  }

  /** The odd tap count newLowpass settles on for a downsample. */
  function TapCount(fromHz: int, toHz: int): int
    requires 0 < toHz < fromHz
  {
    var width := (STOP_RATIO - CUTOFF_RATIO) * toHz as real / fromHz as real;
    var n := if width > 0.0 then Ceil(TRANSITION_WIDTH / width) else MIN_TAPS;
    var atLeast := if n < MIN_TAPS then MIN_TAPS else n;
    var atMost := if atLeast > MAX_TAPS then MAX_TAPS else atLeast;
    if atMost % 2 == 0 then atMost + 1 else atMost
  }

  lemma WidthQuotient(fromHz: int, toHz: int)
    requires 0 < toHz < fromHz
    ensures (STOP_RATIO - CUTOFF_RATIO) * toHz as real / fromHz as real > 0.0
    ensures TRANSITION_WIDTH / ((STOP_RATIO - CUTOFF_RATIO) * toHz as real / fromHz as real)
         == 44.0 * fromHz as real / toHz as real
  {
    var f, d := fromHz as real, toHz as real;
    var w := 0.075 * d / f;
    assert w * f == 0.075 * d;
    Positive(d, f);
    var q := 3.3 / w;
    assert q * w == 3.3;
    assert q * (w * f) == 3.3 * f;
    assert q * d == 44.0 * f;
  }

  lemma Positive(d: real, f: real)
    requires d > 0.0 && f > 0.0
    ensures 0.075 * d / f > 0.0
  {
  }

  lemma CeilQuotient(x: int, d: int)
    requires d > 0
    ensures (Ceil(x as real / d as real) - 1) * d < x <= Ceil(x as real / d as real) * d
  {
    var q := x as real / d as real;
    var c := Ceil(q);
    CeilBounds(q);
    hide Ceil;
    Product(c, d);
    Product(c - 1, d);
    Scale(q, x as real, d as real, (c - 1) as real, c as real);
  }

  lemma CeilBounds(q: real)
    ensures (Ceil(q) - 1) as real < q <= Ceil(q) as real
  {
  }

  lemma Scale(q: real, x: real, d: real, lo: real, hi: real)
    requires d > 0.0 && q == x / d && lo < q <= hi
    ensures lo * d < x <= hi * d
  {
    assert q * d == x;
    assert lo * d < q * d;
    assert q * d <= hi * d;
  }

  lemma Product(c: int, d: int)
    ensures (c * d) as real == c as real * d as real
  {
  }

  /**
   The tap count is odd, between 45 and 255, and below the cap it is the smallest odd count that
   covers the transition width; the lower bound of 31 never binds.
   */
  lemma TapCountBounds(fromHz: int, toHz: int)
    requires 0 < toHz < fromHz
    ensures TapCount(fromHz, toHz) % 2 == 1 && 45 <= TapCount(fromHz, toHz) <= MAX_TAPS
    ensures TapCount(fromHz, toHz) < MAX_TAPS ==>
      (TapCount(fromHz, toHz) - 2) * toHz < 44 * fromHz <= TapCount(fromHz, toHz) * toHz
    ensures TapCount(fromHz, toHz) == MAX_TAPS <==> 44 * fromHz > 253 * toHz
  {
    var c := Ceil((44 * fromHz) as real / toHz as real);
    TapCountIs(fromHz, toHz);
    CeilQuotient(44 * fromHz, toHz);
    hide TapCount, Ceil;
    OddBounds(c, TapCount(fromHz, toHz), 44 * fromHz, toHz);
  }

  lemma TapCountIs(fromHz: int, toHz: int)
    requires 0 < toHz < fromHz
    ensures var c := Ceil((44 * fromHz) as real / toHz as real);
      c > 44 && TapCount(fromHz, toHz) == if c > 253 then 255 else if c % 2 == 0 then c + 1 else c
  {
    var c := Ceil((44 * fromHz) as real / toHz as real);
    WidthQuotient(fromHz, toHz);
    CeilQuotient(44 * fromHz, toHz);
    assert (44 * fromHz) as real == 44.0 * fromHz as real;
    hide Ceil;
    if c <= 44 {
      Times(c, 44, toHz);
    }
  }

  /** The smallest odd number from c up, cut at 255, against the quotient a / d that c rounds up. */
  lemma OddBounds(c: int, n: int, a: int, d: int)
    requires d > 0 && c > 44 && (c - 1) * d < a <= c * d
    requires n == if c > 253 then 255 else if c % 2 == 0 then c + 1 else c
    ensures n % 2 == 1 && 45 <= n <= 255
    ensures n < 255 ==> (n - 2) * d < a <= n * d
    ensures n == 255 <==> a > 253 * d
  {
    if c <= 253 {
      Times(c, 253, d);
      Times(c, n, d);
      Times(n - 2, c - 1, d);
    } else {
      Times(253, c - 1, d);
    }
  }

  lemma Times(x: int, y: int, d: int)
    requires x <= y && d > 0
    ensures x * d <= y * d
  {
  }

  /** The trigonometric functions as parameters, with the symmetries the taps rely on. */
  datatype Trig = Trig(sin: real -> real, cos: real -> real, pi: real) {
    ghost predicate Valid() {
      && pi > 0.0
      && (forall x: real, y: real :: x + y == 0.0 ==> sin(x) == -sin(y))
      && (forall x: real, y: real :: x + y == 2.0 * pi ==> cos(x) == cos(y))
    }

    /** Ideal impulse response at x samples from the middle. */
    function Sinc(cutoff: real, x: real): real
      requires pi > 0.0
    {
      if x == 0.0 then 2.0 * cutoff else sin(Swing(cutoff, x)) / (pi * x)
    }

    /** How far the cutoff frequency has turned after x samples. */
    function Swing(cutoff: real, x: real): real {
      2.0 * pi * cutoff * x
    }

    /** Where coefficient i of n lies on the window's full turn. */
    function Angle(n: int, i: int): real
      requires n >= 3
    {
      2.0 * pi * i as real / (n - 1) as real
    }

    function Hamming(n: int, i: int): real
      requires n >= 3
    {
      0.54 - 0.46 * cos(Angle(n, i))
    }

    /** Windowed sinc coefficient i of n, before normalisation. */
    function Raw(n: int, cutoff: real, i: int): real
      requires n >= 3 && pi > 0.0
    {
      Sinc(cutoff, i as real - (n - 1) as real / 2.0) * Hamming(n, i)
    }

    ghost function RawTaps(n: int, cutoff: real): seq<real>
      requires n >= 3 && pi > 0.0
    {
      seq(n, i => Raw(n, cutoff, i))
    }

    lemma SincEven(cutoff: real, x: real)
      requires Valid()
      ensures Sinc(cutoff, -x) == Sinc(cutoff, x)
    {
      if x != 0.0 {
        var y, z := Swing(cutoff, -x), Swing(cutoff, x);
        assert y + z == 0.0;
        assert sin(y) == -sin(z);
        NegatedQuotient(sin(z), pi, x);
      }
    }

    lemma AngleMirrored(n: int, i: int)
      requires n >= 3
      ensures Angle(n, n - 1 - i) + Angle(n, i) == 2.0 * pi
    {
      var m, j := (n - 1) as real, i as real;
      assert (n - 1 - i) as real == m - j;
      Mirror(2.0 * pi, j, m);
    }

    /** The window is 0.08 at both ends and 1 in the middle, where the sinc peaks. */
    lemma WindowShape(n: int, cutoff: real)
      requires Valid() && n >= 3 && n % 2 == 1 && cos(0.0) == 1.0 && cos(pi) == -1.0
      ensures Raw(n, cutoff, (n - 1) / 2) == 2.0 * cutoff
      ensures Raw(n, cutoff, 0) == 0.08 * Sinc(cutoff, (n - 1) as real / 2.0)
      ensures Raw(n, cutoff, n - 1) == 0.08 * Sinc(cutoff, (n - 1) as real / 2.0)
    {
      var m := (n - 1) / 2;
      assert (n - 1) as real == 2.0 * m as real;
      HalfTurn(pi, m as real);
      assert Angle(n, 0) == 0.0 && Angle(n, m) == pi;
      hide Sinc, Angle;
      SincEven(cutoff, m as real);
      RawSymmetric(n, cutoff, 0);
    }

    /** A quarter turn out the ideal response is 2 / pi of its peak, and a quarter in the window is 0.54. */
    lemma QuarterTurn(n: int, cutoff: real, x: real)
      requires pi > 0.0 && 4.0 * cutoff * x == 1.0 && sin(0.5 * pi) == 1.0
      requires n >= 3 && n % 4 == 1 && cos(0.5 * pi) == 0.0
      ensures pi * Sinc(cutoff, x) == 2.0 * Sinc(cutoff, 0.0)
      ensures Hamming(n, (n - 1) / 4) == 0.54
    {
      assert x != 0.0;
      Reordered(pi, cutoff, x, 0.5);
      assert Swing(cutoff, x) == 0.5 * pi;
      hide Swing;
      UnitOver(pi, cutoff, x);
      var m := (n - 1) / 4;
      assert (n - 1) as real == 4.0 * m as real;
      QuarterAngle(pi, m as real);
      assert Angle(n, m) == 0.5 * pi;
      hide Angle;
    }

    /** The ideal response crosses zero wherever the cutoff has gone through whole half turns. */
    lemma ZeroCrossing(cutoff: real, x: real, m: int)
      requires pi > 0.0 && m != 0 && 2.0 * cutoff * x == m as real && sin(m as real * pi) == 0.0
      ensures Sinc(cutoff, x) == 0.0
    {
      assert x != 0.0;
      Reordered(pi, cutoff, x, m as real);
      assert Swing(cutoff, x) == m as real * pi;
      hide Swing;
    }

    lemma HammingEven(n: int, i: int)
      requires Valid() && n >= 3
      ensures Hamming(n, n - 1 - i) == Hamming(n, i)
    {
      AngleMirrored(n, i);
      hide Angle;
    }

    lemma RawSymmetric(n: int, cutoff: real, i: int)
      requires Valid() && n >= 3 && 0 <= i < n
      ensures Raw(n, cutoff, i) == Raw(n, cutoff, n - 1 - i)
    {
      hide Sinc, Hamming;
      SincEven(cutoff, i as real - (n - 1) as real / 2.0);
      assert (n - 1 - i) as real - (n - 1) as real / 2.0 == -(i as real - (n - 1) as real / 2.0);
      HammingEven(n, i);
    }
  }

  lemma NegatedQuotient(s: real, p: real, x: real)
    requires p > 0.0 && x != 0.0
    ensures p * x != 0.0 && p * (-x) != 0.0 && (-s) / (p * (-x)) == s / (p * x)
  {
    var d := p * x;
    assert p * (-x) == -d;
    assert (s / d) * (-d) == -s;
  }

  lemma Reordered(p: real, c: real, x: real, m: real)
    requires 2.0 * c * x == m
    ensures 2.0 * p * c * x == m * p
  {
  }

  lemma UnitOver(p: real, c: real, x: real)
    requires p > 0.0 && x != 0.0 && 4.0 * c * x == 1.0
    ensures p * x != 0.0 && p * (1.0 / (p * x)) == 2.0 * (2.0 * c)
  {
    var d := p * x;
    assert d * (1.0 / d) == 1.0;
    assert x * (p * (1.0 / d)) == 1.0;
    assert x * (4.0 * c) == 1.0;
  }

  lemma QuarterAngle(p: real, m: real)
    requires m > 0.0
    ensures 2.0 * p * m / (4.0 * m) == 0.5 * p
  {
    assert 2.0 * p * m == 0.5 * p * (4.0 * m);
  }

  lemma HalfTurn(p: real, m: real)
    requires m > 0.0
    ensures 2.0 * p * m / (2.0 * m) == p && 2.0 * p * 0.0 / (2.0 * m) == 0.0
  {
    assert 2.0 * p * m == p * (2.0 * m);
  }

  lemma Mirror(p: real, i: real, m: real)
    requires m > 0.0
    ensures p * (m - i) / m == p - p * i / m
  {
    assert p * (m - i) == p * m - p * i;
    assert p * m / m == p;
  }

  /** hammingSincTaps: fill, then rescale to unity gain at DC. */
  method HammingSincTaps(n: int, cutoff: real, trig: Trig) returns (taps: array<real>)
    requires trig.Valid() && n >= 3 && n % 2 == 1
    requires Total(trig.RawTaps(n, cutoff)) != 0.0
    ensures fresh(taps) && taps.Length == n
    ensures LinearPhase(taps[..]) && Total(taps[..]) == 1.0
    ensures forall i :: 0 <= i < n ==> taps[i] == trig.Raw(n, cutoff, i) / Total(trig.RawTaps(n, cutoff))
  {
    assert trig.pi > 0.0;
    RawAt(trig, n, cutoff);
    hide *;
    var sum;
    taps, sum := FillTaps(n, cutoff, trig, trig.RawTaps(n, cutoff));
    ScaleTaps(taps, sum);
    Normalised(trig, n, cutoff, taps[..]);
  }

  method FillTaps(n: int, cutoff: real, trig: Trig, ghost raw: seq<real>) returns (taps: array<real>, sum: real)
    requires n >= 3 && trig.pi > 0.0
    requires |raw| == n && forall i :: 0 <= i < n ==> raw[i] == trig.Raw(n, cutoff, i)
    ensures fresh(taps) && taps.Length == n && sum == Total(raw)
    ensures forall i :: 0 <= i < n ==> taps[i] == raw[i]
  {
    hide *;
    taps := new real[n];
    sum := 0.0;
    TotalEmpty(raw);
    for i := 0 to n
      invariant forall j :: 0 <= j < i ==> taps[j] == raw[j]
      invariant sum == Total(raw[..i])
    {
      var tap := trig.Raw(n, cutoff, i);
      taps[i] := tap;
      TotalNext(raw, i);
      sum := sum + tap;
    }
    assert raw[..n] == raw;
  }

  method ScaleTaps(taps: array<real>, sum: real)
    requires sum != 0.0
    modifies taps
    ensures forall i :: 0 <= i < taps.Length ==> taps[i] == old(taps[i]) / sum
  {
    for i := 0 to taps.Length
      invariant forall j :: 0 <= j < i ==> taps[j] == old(taps[j]) / sum
      invariant forall j :: i <= j < taps.Length ==> taps[j] == old(taps[j])
    {
      taps[i] := taps[i] / sum;
    }
  }

  lemma RawAt(trig: Trig, n: int, cutoff: real)
    requires trig.pi > 0.0 && n >= 3
    ensures |trig.RawTaps(n, cutoff)| == n
    ensures forall i :: 0 <= i < n ==> trig.RawTaps(n, cutoff)[i] == trig.Raw(n, cutoff, i)
  {
  }

  lemma TotalEmpty(xs: seq<real>)
    ensures Total(xs[..0]) == 0.0
  {
  }

  lemma TotalNext(xs: seq<real>, i: nat)
    requires i < |xs|
    ensures Total(xs[..i + 1]) == Total(xs[..i]) + xs[i]
  {
    assert xs[..i + 1][..i] == xs[..i];
  }

  lemma Normalised(trig: Trig, n: int, cutoff: real, taps: seq<real>)
    requires trig.Valid() && n >= 3 && n % 2 == 1 && |taps| == n
    requires Total(trig.RawTaps(n, cutoff)) != 0.0
    requires forall i :: 0 <= i < n ==> taps[i] == trig.RawTaps(n, cutoff)[i] / Total(trig.RawTaps(n, cutoff))
    ensures LinearPhase(taps) && Total(taps) == 1.0
  {
    var raw := trig.RawTaps(n, cutoff);
    var s := Total(raw);
    RawAt(trig, n, cutoff);
    forall k | 0 <= k < n
      ensures raw[k] == raw[n - 1 - k]
    {
      hide *;
      trig.RawSymmetric(n, cutoff, k);
    }
    hide Trig.Raw, Total, Trig.RawTaps, Trig.Valid;
    TotalScaled(raw, taps, s);
    QuotientBySelf(s);
    SymmetricScaled(raw, taps, s);
  }

  lemma QuotientBySelf(s: real)
    requires s != 0.0
    ensures s / s == 1.0
  {
  }

  lemma SymmetricScaled(xs: seq<real>, ys: seq<real>, s: real)
    requires s != 0.0 && |xs| == |ys| && Symmetric(xs) && forall i :: 0 <= i < |xs| ==> ys[i] == xs[i] / s
    ensures Symmetric(ys)
  {
    forall k | 0 <= k < |ys|
      ensures ys[k] == ys[|ys| - 1 - k]
    {
      assert xs[k] == xs[|xs| - 1 - k];
      assert ys[|ys| - 1 - k] == xs[|xs| - 1 - k] / s;
    }
  }

  // ---- the filter ------------------------------------------------------------------------

  /** One folded tap pair is the two direct taps it stands for. */
  lemma FoldPair(taps: seq<real>, x: seq<int16>, g: int, k: int)
    requires LinearPhase(taps) && 0 <= k < (|taps| - 1) / 2
    ensures taps[k] * (At(x, g - k) as real + At(x, g - (|taps| - 1 - k)) as real)
         == Tap(taps, x, g, k) + Tap(taps, x, g, |taps| - 1 - k)
  {
    TimesSum(taps[k], At(x, g - k) as real, At(x, g - (|taps| - 1 - k)) as real);
  }

  /** What the folded inner loop has accumulated after k pairs. */
  ghost function Folded(taps: seq<real>, x: seq<int16>, g: int, k: int): real
    requires 0 <= k <= |taps| - k
  {
    Dot(taps, x, g, 0, k) + Dot(taps, x, g, |taps| - k, |taps|)
  }

  /** One multiply for the two samples a symmetric pair weights. */
  function FoldTerm(h: real, newer: int16, older: int16): real {
    h * (newer as real + older as real)
  }

  function MiddleTerm(h: real, middle: int16): real {
    h * middle as real
  }

  lemma FoldStep(taps: seq<real>, x: seq<int16>, g: int, k: int, newer: int16, older: int16)
    requires LinearPhase(taps) && 0 <= k < (|taps| - 1) / 2
    requires newer == At(x, g - k) && older == At(x, g - (|taps| - 1 - k))
    ensures Folded(taps, x, g, k + 1) == Folded(taps, x, g, k) + FoldTerm(taps[k], newer, older)
  {
    hide Tap, Symmetric;
    FoldPair(taps, x, g, k);
    DotPeelFirst(taps, x, g, |taps| - k - 1, |taps|);
  }

  lemma FoldDone(taps: seq<real>, x: seq<int16>, g: int, half: int, middle: int16)
    requires LinearPhase(taps) && half == (|taps| - 1) / 2 && middle == At(x, g - half)
    ensures Folded(taps, x, g, half) + MiddleTerm(taps[half], middle) == Dot(taps, x, g, 0, |taps|)
  {
    MiddleIsTap(taps, x, g, half, middle);
    hide Symmetric, Tap, MiddleTerm, Dot, At;
    DotSplit(taps, x, g, 0, half, |taps|);
    DotPeelFirst(taps, x, g, half, |taps|);
  }

  lemma MiddleIsTap(taps: seq<real>, x: seq<int16>, g: int, k: int, middle: int16)
    requires 0 <= k < |taps| && middle == At(x, g - k)
    ensures MiddleTerm(taps[k], middle) == Tap(taps, x, g, k)
  {
    hide At;
  }

  class Lowpass {
    const taps: seq<real>
    const delay: array<int16>
    /** Every input sample since construction or reset. */
    ghost var stream: seq<int16>

    ghost predicate Valid()
      reads this, delay
    {
      && LinearPhase(taps)
      && delay.Length == |taps| - 1
      && Window(delay[..], stream, |stream| - delay.Length)
    }

    constructor (taps: seq<real>)
      requires LinearPhase(taps)
      ensures Valid() && stream == [] && this.taps == taps && fresh(delay)
    {
      this.taps := taps;
      delay := new int16[|taps| - 1](_ => 0);
      stream := [];
    }

    method Process(input: seq<int16>) returns (out: seq<int16>)
      requires Valid()
      modifies this, delay
      ensures Valid() && stream == old(stream) + input
      ensures Emits([], out, Fir(taps, old(stream)), Fir(taps, stream))
    {
      hide Symmetric;
      ghost var h, x, off := taps, stream + input, |stream|;
      FirPrefix(h, stream, input);
      if |input| == 0 {
        assert x == stream && input == [];
        return input;
      }
      var ext := delay[..] + input;
      WindowExtends(delay[..], stream, input);
      var scratch := FilterWindow(ext, |input|, x, off);
      out := scratch[..];
      FirTail(h, x, off, out);
      SaveDelay(ext);
      WindowTail(ext, x, delay.Length);
      hide FirAt, At, Fir;
      stream := x;
    }

    /** The outer loop: one output per new sample. */
    method FilterWindow(ext: seq<int16>, count: nat, ghost x: seq<int16>, ghost off: nat)
      returns (scratch: array<int16>)
      requires LinearPhase(taps) && |taps| - 1 + count <= |ext| && Window(ext, x, off - (|taps| - 1))
      ensures fresh(scratch) && scratch.Length == count
      ensures forall j :: 0 <= j < count ==> scratch[j] == FirAt(taps, x, off + j)
    {
      scratch := new int16[count](_ => 0);
      for i := 0 to count
        invariant forall j :: 0 <= j < i ==> scratch[j] == FirAt(taps, x, off + j)
      {
        hide *;
        var acc := FoldedDot(ext, i, x, off);
        scratch[i] := Clamp(acc);
        FirAtIs(taps, x, off + i, acc);
      }
    }

    method SaveDelay(ext: seq<int16>)
      requires delay.Length <= |ext|
      modifies delay
      ensures delay[..] == ext[|ext| - delay.Length..]
    {
      forall i | 0 <= i < delay.Length {
        delay[i] := ext[|ext| - delay.Length + i];
      }
    }

    static lemma WindowTail(ext: seq<int16>, x: seq<int16>, n: nat)
      requires n <= |ext| && Window(ext, x, |x| - |ext|)
      ensures Window(ext[|ext| - n..], x, |x| - n)
    {
    }

    /** ext holds the samples of x from index start on. */
    static ghost predicate Window(ext: seq<int16>, x: seq<int16>, start: int) {
      forall e :: 0 <= e < |ext| ==> ext[e] == At(x, start + e)
    }

    static lemma WindowExtends(delay: seq<int16>, x: seq<int16>, input: seq<int16>)
      requires Window(delay, x, |x| - |delay|)
      ensures Window(delay + input, x + input, |x| - |delay|)
    {
      forall e | 0 <= e < |delay + input|
        ensures (delay + input)[e] == At(x + input, |x| - |delay| + e)
      {
        if e < |delay| {
          assert At(x + input, |x| - |delay| + e) == At(x, |x| - |delay| + e);
        } else {
          assert (x + input)[|x| + (e - |delay|)] == input[e - |delay|];
        }
      }
    }

    static lemma WindowAt(ext: seq<int16>, x: seq<int16>, start: int, e: int)
      requires Window(ext, x, start) && 0 <= e < |ext|
      ensures ext[e] == At(x, start + e)
    {
    }

    static lemma FirAtIs(h: seq<real>, x: seq<int16>, g: int, acc: real)
      requires acc == Dot(h, x, g, 0, |h|)
      ensures FirAt(h, x, g) == Clamp(acc)
    {
    }

    static lemma FirTail(h: seq<real>, x: seq<int16>, off: nat, out: seq<int16>)
      requires off + |out| == |x| && forall j :: 0 <= j < |out| ==> out[j] == FirAt(h, x, off + j)
      ensures Fir(h, x)[off..] == out
    {
    }

    /** The inner loop: one output from the extended window. */
    method FoldedDot(ext: seq<int16>, i: int, ghost x: seq<int16>, ghost off: int) returns (acc: real)
      requires LinearPhase(taps)
      requires 0 <= i && i + |taps| <= |ext| && Window(ext, x, off - (|taps| - 1))
      ensures acc == Dot(taps, x, off + i, 0, |taps|)
    {
      hide Symmetric, Window, Dot;
      var n := |taps|;
      var half := (n - 1) / 2;
      ghost var h, g, start := taps, off + i, off - (n - 1);
      assert |h| == n && n % 2 == 1 && n >= 3;
      acc := 0.0;
      FoldStart(h, x, g);
      hide *;
      for k := 0 to half
        invariant acc == Folded(h, x, g, k)
      {
        var newest, oldest := ext[i + n - 1 - k], ext[i + k];
        WindowAt(ext, x, start, i + n - 1 - k);
        WindowAt(ext, x, start, i + k);
        FoldStep(h, x, g, k, newest, oldest);
        acc := acc + FoldTerm(taps[k], newest, oldest);
      }
      WindowAt(ext, x, start, i + half);
      FoldDone(h, x, g, half, ext[i + half]);
      acc := acc + MiddleTerm(taps[half], ext[i + half]);
    }

    static lemma FoldStart(h: seq<real>, x: seq<int16>, g: int)
      ensures Folded(h, x, g, 0) == 0.0
    {
    }

    method Reset()
      requires Valid()
      modifies this, delay
      ensures Valid() && stream == []
    {
      for i := 0 to delay.Length
        invariant forall j :: 0 <= j < i ==> delay[j] == 0
      {
        delay[i] := 0;
      }
      stream := [];
    }
  }

  function Cutoff(fromHz: int, toHz: int): real
    requires fromHz > 0
  {
    CUTOFF_RATIO * toHz as real / fromHz as real
  }

  /** Sum of the coefficients before normalisation; the source divides by it. */
  ghost function RawGain(fromHz: int, toHz: int, trig: Trig): real
    requires trig.pi > 0.0 && 0 < toHz < fromHz
  {
    TapCountBounds(fromHz, toHz);
    Total(trig.RawTaps(TapCount(fromHz, toHz), Cutoff(fromHz, toHz)))
  }

  /** The windowed sinc for these rates, scaled to sum one. */
  ghost predicate IsDesign(taps: seq<real>, fromHz: int, toHz: int, trig: Trig)
    requires trig.pi > 0.0 && 0 < toHz < fromHz && RawGain(fromHz, toHz, trig) != 0.0
  {
    TapCountBounds(fromHz, toHz);
    var n := TapCount(fromHz, toHz);
    |taps| == n && forall i :: 0 <= i < n ==>
      taps[i] == trig.Raw(n, Cutoff(fromHz, toHz), i) / RawGain(fromHz, toHz, trig)
  }

  /** The passband ends at 0.425 of the lower rate: 3400 Hz for a telephone line. */
  lemma CutoffFrequency(fromHz: int, toHz: int)
    requires fromHz > 0
    ensures Cutoff(fromHz, toHz) * fromHz as real == 0.425 * toHz as real
    ensures Cutoff(fromHz, 8000) * fromHz as real == 3400.0
  {
  }

  /** No filter unless the rate goes down. */
  method NewLowpass(fromHz: int, toHz: int, trig: Trig) returns (lp: Lowpass?)
    requires trig.Valid() && (0 < toHz < fromHz ==> RawGain(fromHz, toHz, trig) != 0.0)
    ensures lp == null <==> fromHz <= toHz || fromHz <= 0 || toHz <= 0
    ensures lp != null ==>
      && fresh(lp) && fresh(lp.delay) && lp.Valid() && lp.stream == []
      && |lp.taps| == TapCount(fromHz, toHz) && Total(lp.taps) == 1.0
      && IsDesign(lp.taps, fromHz, toHz, trig)
  {
    if fromHz <= toHz || fromHz <= 0 || toHz <= 0 {
      return null;
    }
    TapCountBounds(fromHz, toHz);
    var n := TapCount(fromHz, toHz);
    assert Total(trig.RawTaps(n, Cutoff(fromHz, toHz))) == RawGain(fromHz, toHz, trig);
    hide *;
    var taps := HammingSincTaps(n, Cutoff(fromHz, toHz), trig);
    lp := new Lowpass(taps[..]);
  }
}
