/**
 Lagrange interpolation on consecutive integer nodes, as internal/audio/resample.go evaluates it,
 and its exactness on polynomials. Arithmetic is over the reals.
 */
module Lagrange {

  /** One factor of a basis polynomial. */
  function Ratio(t: real, k: int, m: int): real
    requires k != m
  {
    (t - m as real) / (k - m) as real
  }

  /** Basis polynomial of node k among the nodes a .. b, at t. */
  function Weight(a: int, b: int, k: int, t: real): real
    decreases b - a
  {
    if b < a then 1.0
    else if b == k then Weight(a, b - 1, k, t)
    else Weight(a, b - 1, k, t) * Ratio(t, k, b)
  }

  /** Node k's share of the interpolant. */
  ghost function Term(f: int -> real, a: int, b: int, t: real, k: int): real {
    Weight(a, b, k, t) * f(k)
  }

  /** Sum of f(k) times the weight of k among a .. b, for k in a .. hi. */
  ghost function Blend(f: int -> real, a: int, b: int, t: real, hi: int): real
    decreases hi - a
  {
    if hi < a then 0.0
    else Blend(f, a, b, t, hi - 1) + Term(f, a, b, t, hi)
  }

  /** Value at x of the polynomial with coefficients cs, lowest degree first. */
  ghost function Eval(cs: seq<real>, x: real): real {
    if cs == [] then 0.0 else cs[0] + x * Eval(cs[1..], x)
  }

  /** Quotient of cs by (x - a). */
  ghost function Quotient(cs: seq<real>, a: real): (q: seq<real>)
    ensures |q| == if cs == [] then 0 else |cs| - 1
  {
    if |cs| <= 1 then [] else [Eval(cs[1..], a)] + Quotient(cs[1..], a)
  }

  // ---- basis polynomials -----------------------------------------------------------------

  lemma {:induction false} WeightPeelFirst(a: int, b: int, k: int, t: real)
    requires a <= b
    ensures Weight(a, b, k, t) == if k == a then Weight(a + 1, b, k, t) else Ratio(t, k, a) * Weight(a + 1, b, k, t)
    decreases b - a
  {
    hide Ratio;
    if a == b {
      assert Weight(a, b - 1, k, t) == 1.0 == Weight(a + 1, b, k, t);
    } else {
      WeightPeelFirst(a, b - 1, k, t);
      if k != a && k != b {
        Assoc(Ratio(t, k, a), Weight(a + 1, b - 1, k, t), Ratio(t, k, b));
      }
    }
  }

  lemma Assoc(x: real, y: real, z: real)
    ensures (x * y) * z == x * (y * z)
  {
  }

  lemma RatioClears(t: real, k: int, m: int)
    requires k != m
    ensures (k - m) as real * Ratio(t, k, m) == t - m as real
  {
  }

  /** Dropping the first node: (k - a) w(a..b, k) = (t - a) w(a+1..b, k). */
  lemma WeightDropFirst(a: int, b: int, k: int, t: real)
    requires a < k <= b
    ensures (k - a) as real * Weight(a, b, k, t) == (t - a as real) * Weight(a + 1, b, k, t)
  {
    WeightPeelFirst(a, b, k, t);
    RatioClears(t, k, a);
    Assoc((k - a) as real, Ratio(t, k, a), Weight(a + 1, b, k, t));
  }

  /** Dropping the last node: (b - k) w(a..b, k) = (b - t) w(a..b-1, k). */
  lemma WeightDropLast(a: int, b: int, k: int, t: real)
    requires a <= k < b
    ensures (b - k) as real * Weight(a, b, k, t) == (b as real - t) * Weight(a, b - 1, k, t)
  {
    RatioClears(t, k, b);
    var w, r := Weight(a, b - 1, k, t), Ratio(t, k, b);
    assert (b - k) as real == -((k - b) as real);
    calc {
      (b - k) as real * (w * r);
    == { Commute((b - k) as real, w, r); }
      ((b - k) as real * r) * w;
    == { Negate((k - b) as real, r); }
      (b as real - t) * w;
    }
  }

  lemma Commute(x: real, y: real, z: real)
    ensures x * (y * z) == (x * z) * y
  {
  }

  lemma Negate(x: real, y: real)
    ensures (-x) * y == -(x * y)
  {
  }

  lemma RatioOfSelf(m: int)
    requires m != 0
    ensures Ratio(0.0, 0, m) == 1.0
  {
    var d := 0.0 - m as real;
    assert (0 - m) as real == d && d / d == 1.0;
  }

  /** At t = 0 the weights pick node 0. */
  lemma {:induction false} WeightAtZero(a: int, b: int, k: int)
    requires a <= b
    ensures k == 0 ==> Weight(a, b, k, 0.0) == 1.0
    ensures k != 0 && a <= 0 <= b ==> Weight(a, b, k, 0.0) == 0.0
    decreases b - a
  {
    if a < b {
      WeightAtZero(a, b - 1, k);
    }
    if k == 0 && b != 0 {
      RatioOfSelf(b);
    } else if k != 0 && b == 0 {
      assert Ratio(0.0, k, 0) == 0.0;
    }
  }

  // ---- sums ------------------------------------------------------------------------------

  lemma {:induction false} BlendLinear(f: int -> real, g: int -> real, h: int -> real, c: real,
                                       a: int, b: int, t: real, hi: int)
    requires forall k :: a <= k <= hi ==> h(k) == f(k) + c * g(k)
    ensures Blend(h, a, b, t, hi) == Blend(f, a, b, t, hi) + c * Blend(g, a, b, t, hi)
    decreases hi - a
  {
    if hi < a {
    } else {
      BlendLinear(f, g, h, c, a, b, t, hi - 1);
      LinearTerm(Weight(a, b, hi, t), f(hi), g(hi), c, Blend(g, a, b, t, hi - 1));
    }
  }

  /** The interpolant only depends on the sampled values at its nodes. */
  lemma {:induction false} BlendSame(f: int -> real, g: int -> real, a: int, b: int, t: real, hi: int)
    requires forall k :: a <= k <= hi ==> f(k) == g(k)
    ensures Blend(f, a, b, t, hi) == Blend(g, a, b, t, hi)
    decreases hi - a
  {
    if hi < a {
    } else {
      BlendSame(f, g, a, b, t, hi - 1);
    }
  }

  lemma RatioShift(t: real, k: int, m: int, s: int)
    requires k != m
    ensures Ratio(t + s as real, k + s, m + s) == Ratio(t, k, m)
  {
    assert t + s as real - (m + s) as real == t - m as real;
  }

  lemma {:induction false} WeightShift(a: int, b: int, k: int, t: real, s: int)
    ensures Weight(a + s, b + s, k + s, t + s as real) == Weight(a, b, k, t)
    decreases b - a
  {
    if a > b {
    } else {
      WeightShift(a, b - 1, k, t, s);
      if k != b {
        RatioShift(t, k, b, s);
      }
    }
  }

  /** Interpolation commutes with moving the nodes. */
  lemma {:induction false} BlendShift(f: int -> real, g: int -> real, a: int, b: int, t: real, s: int, hi: int)
    requires forall k :: a <= k <= hi ==> g(k) == f(k + s)
    ensures Blend(g, a, b, t, hi) == Blend(f, a + s, b + s, t + s as real, hi + s)
    decreases hi - a
  {
    if hi < a {
    } else {
      BlendShift(f, g, a, b, t, s, hi - 1);
      WeightShift(a, b, hi, t, s);
    }
  }

  lemma LinearTerm(w: real, x: real, y: real, c: real, s: real)
    ensures w * (x + c * y) + c * s == w * x + c * (s + w * y)
  {
    assert w * (x + c * y) == w * x + w * (c * y);
    assert w * (c * y) == c * (w * y);
  }

  lemma TermDropFirst(f: int -> real, g: int -> real, a: int, b: int, t: real, e: real, k: int)
    requires a < k <= b && e == t - a as real && g(k) == (k - a) as real * f(k)
    ensures Term(g, a, b, t, k) == e * Term(f, a + 1, b, t, k)
  {
    WeightDropFirst(a, b, k, t);
    MovesAcross(Weight(a, b, k, t), (k - a) as real, f(k), g(k), e, Weight(a + 1, b, k, t));
    hide Weight;
  }

  lemma TermDropLast(f: int -> real, g: int -> real, a: int, b: int, t: real, e: real, k: int)
    requires a <= k < b && e == b as real - t && g(k) == (b - k) as real * f(k)
    ensures Term(g, a, b, t, k) == e * Term(f, a, b - 1, t, k)
  {
    WeightDropLast(a, b, k, t);
    MovesAcross(Weight(a, b, k, t), (b - k) as real, f(k), g(k), e, Weight(a, b - 1, k, t));
    hide Weight;
  }

  lemma MovesAcross(w: real, d: real, x: real, y: real, e: real, v: real)
    requires d * w == e * v && y == d * x
    ensures w * y == e * (v * x)
  {
    assert w * (d * x) == (d * w) * x;
    assert (e * v) * x == e * (v * x);
  }

  lemma Distribute(c: real, x: real, y: real)
    ensures c * (x + y) == c * x + c * y
  {
  }

  /** Weighting node k by k - a drops the first node. */
  lemma {:induction false} BlendDropFirst(f: int -> real, g: int -> real, a: int, b: int, t: real, e: real, hi: int)
    requires a <= hi <= b && e == t - a as real
    requires forall k: int :: g(k) == (k - a) as real * f(k)
    ensures Blend(g, a, b, t, hi) == e * Blend(f, a + 1, b, t, hi)
    decreases hi - a
  {
    if hi == a {
      assert g(a) == 0.0 && Term(g, a, b, t, a) == 0.0;
      assert Blend(g, a, b, t, a - 1) == 0.0;
    } else {
      hide Term;
      BlendDropFirst(f, g, a, b, t, e, hi - 1);
      TermDropFirst(f, g, a, b, t, e, hi);
      Distribute(e, Blend(f, a + 1, b, t, hi - 1), Term(f, a + 1, b, t, hi));
    }
  }

  /** Weighting node k by b - k drops the last node. */
  lemma {:induction false} BlendDropLast(f: int -> real, g: int -> real, a: int, b: int, t: real, e: real, hi: int)
    requires a - 1 <= hi < b && e == b as real - t
    requires forall k: int :: g(k) == (b - k) as real * f(k)
    ensures Blend(g, a, b, t, hi) == e * Blend(f, a, b - 1, t, hi)
    decreases hi - a
  {
    hide Term;
    if hi < a {
    } else {
      BlendDropLast(f, g, a, b, t, e, hi - 1);
      TermDropLast(f, g, a, b, t, e, hi);
      Distribute(e, Blend(f, a, b - 1, t, hi - 1), Term(f, a, b - 1, t, hi));
    }
  }

  /** The weights of any run of nodes sum to one, at every t. */
  lemma {:induction false} WeightsSumToOne(a: int, b: int, t: real)
    requires a <= b
    ensures Blend(k => 1.0, a, b, t, b) == 1.0
    decreases b - a
  {
    var one := (k: int) => 1.0;
    if a == b {
      assert Weight(a, a, a, t) == Weight(a, a - 1, a, t) == 1.0;
      assert Blend(one, a, b, t, a - 1) == 0.0;
    } else {
      WeightsSumToOne(a + 1, b, t);
      WeightsSumToOne(a, b - 1, t);
      var left, right := (k: int) => (k - a) as real, (k: int) => (b - k) as real;
      BlendDropFirst(one, left, a, b, t, t - a as real, b);
      BlendDropLast(one, right, a, b, t, b as real - t, b - 1);
      assert right(b) == 0.0;
      Combine(one, left, right, a, b, t);
    }
  }

  lemma Combine(one: int -> real, left: int -> real, right: int -> real, a: int, b: int, t: real)
    requires a < b
    requires forall k: int :: one(k) == 1.0 && left(k) == (k - a) as real && right(k) == (b - k) as real
    requires Blend(left, a, b, t, b) == t - a as real && Blend(right, a, b, t, b) == b as real - t
    ensures Blend(one, a, b, t, b) == 1.0
  {
    var d := (b - a) as real;
    var width, zero := (k: int) => d, (k: int) => 0.0;
    BlendLinear(left, right, width, 1.0, a, b, t, b);
    BlendZero(a, b, t, b);
    BlendLinear(zero, one, width, d, a, b, t, b);
    assert d * Blend(one, a, b, t, b) == d;
  }

  lemma {:induction false} BlendZero(a: int, b: int, t: real, hi: int)
    ensures Blend(k => 0.0, a, b, t, hi) == 0.0
    decreases hi - a
  {
    if hi < a {
    } else {
      BlendZero(a, b, t, hi - 1);
    }
  }

  // ---- exactness -------------------------------------------------------------------------

  lemma {:induction false} QuotientIdentity(cs: seq<real>, a: real, x: real)
    ensures Eval(cs, x) == (x - a) * Eval(Quotient(cs, a), x) + Eval(cs, a)
  {
    if |cs| <= 1 {
      if |cs| == 1 {
        assert Eval(cs[1..], x) == 0.0 == Eval(cs[1..], a);
      }
    } else {
      QuotientIdentity(cs[1..], a, x);
      assert Quotient(cs, a)[1..] == Quotient(cs[1..], a);
      Horner(x, a, Eval(Quotient(cs[1..], a), x), Eval(cs[1..], a));
    }
  }

  lemma Horner(x: real, a: real, q: real, r: real)
    ensures x * ((x - a) * q + r) == (x - a) * (r + x * q) + a * r
  {
    assert x * ((x - a) * q + r) == x * ((x - a) * q) + x * r;
    assert x * ((x - a) * q) == (x - a) * (x * q);
    assert (x - a) * (r + x * q) == (x - a) * r + (x - a) * (x * q);
    assert (x - a) * r == x * r - a * r;
  }

  ghost function Sampled(cs: seq<real>): int -> real {
    k => Eval(cs, k as real)
  }

  /** Interpolating a polynomial of degree below the number of nodes returns the polynomial. */
  lemma {:induction false} Exactness(cs: seq<real>, a: int, b: int, t: real)
    requires a <= b && |cs| <= b - a + 1
    ensures Blend(Sampled(cs), a, b, t, b) == Eval(cs, t)
    decreases b - a
  {
    hide Term, Weight, Quotient;
    var q := Quotient(cs, a as real);
    SplitOff(cs, a, b, t);
    QuotientIdentity(cs, a as real, t);
    if a < b {
      Exactness(q, a + 1, b, t);
    } else {
      assert q == [];
      assert Blend(Sampled(q), a + 1, b, t, b) == 0.0;
    }
  }

  /** Interpolating p = (x - a) q + p(a) leaves q on one node less. */
  lemma SplitOff(cs: seq<real>, a: int, b: int, t: real)
    requires a <= b
    ensures Blend(Sampled(cs), a, b, t, b)
         == (t - a as real) * Blend(Sampled(Quotient(cs, a as real)), a + 1, b, t, b) + Eval(cs, a as real)
  {
    hide Term, Weight, Blend, Quotient, Eval;
    var f := Sampled(Quotient(cs, a as real));
    var g := (k: int) => (k - a) as real * f(k);
    SampledSplits(cs, a, f, g);
    BlendDropFirst(f, g, a, b, t, t - a as real, b);
    BlendPlus(g, Sampled(cs), Eval(cs, a as real), a, b, t);
  }

  lemma SampledSplits(cs: seq<real>, a: int, f: int -> real, g: int -> real)
    requires f == Sampled(Quotient(cs, a as real)) && forall k: int :: g(k) == (k - a) as real * f(k)
    ensures forall k: int :: Sampled(cs)(k) == g(k) + Eval(cs, a as real)
  {
    hide Quotient, Eval;
    forall k: int
      ensures Sampled(cs)(k) == g(k) + Eval(cs, a as real)
    {
      QuotientIdentity(cs, a as real, k as real);
      assert k as real - a as real == (k - a) as real;
    }
  }

  /** Adding a constant to the samples adds it to the interpolant. */
  lemma BlendPlus(g: int -> real, h: int -> real, c: real, a: int, b: int, t: real)
    requires a <= b && forall k: int :: h(k) == g(k) + c
    ensures Blend(h, a, b, t, b) == Blend(g, a, b, t, b) + c
  {
    hide Blend;
    BlendLinear(g, k => 1.0, h, c, a, b, t, b);
    WeightsSumToOne(a, b, t);
  }

  /** The source's loop over the 2n nodes -n+1 .. n. */
  method LagrangeWeight(k: int, t: real, n: int) returns (weight: real)
    requires n >= 1
    ensures weight == Weight(-n + 1, n, k, t)
  {
    weight := 1.0;
    var m := -n + 1;
    while m <= n
      invariant -n + 1 <= m <= n + 1
      invariant weight == Weight(-n + 1, m - 1, k, t)
    {
      if m != k {
        weight := weight * ((t - m as real) / (k - m) as real);
      }
      m := m + 1;
    }
  }
}
