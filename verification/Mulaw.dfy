/** The mu-law tables of internal/audio/mulaw.go (section 3 of ITU-T G.711). */
module Mulaw {
  import opened Common

  const MULAW_BIAS := 0x84
  const MULAW_CLIP := 32635

  function Pow2(e: nat): nat {
    if e == 0 then 1 else 2 * Pow2(e - 1)
  }

  function Abs(x: int): nat {
    if x < 0 then -x else x
  }

  /** Magnitude of the code whose low seven complemented bits are c, before the clip. */
  function Magnitude(c: int): int
    requires 0 <= c < 128
  {
    (c % 16 * 8 + MULAW_BIAS) * Pow2(c / 16) - MULAW_BIAS
  }

  function DecodeByte(mu: byte): int16 {
    var c := 255 - mu;
    MagnitudeRange(c % 128);
    var magnitude := if Magnitude(c % 128) > MULAW_CLIP then MULAW_CLIP else Magnitude(c % 128);
    if c >= 128 then -magnitude else magnitude
  }

  function Dist(b: byte, s: int16): nat {
    Abs(DecodeByte(b) - s)
  }

  /** The code the argmin scan keeps after looking at codes 0 .. n-1. */
  function Scan(s: int16, n: int): byte
    requires 1 <= n <= 256
  {
    if n == 1 then 0
    else if Dist(n - 1, s) < Dist(Scan(s, n - 1), s) then n - 1
    else Scan(s, n - 1)
  }

  function Encode(s: int16): byte {
    Scan(s, 256)
  }

  /** b is closest to s, whatever way ties are broken. */
  ghost predicate IsNearest(s: int16, b: byte) {
    forall b': byte :: Dist(b, s) <= Dist(b', s)
  }

  function DecodeAll(src: seq<byte>): seq<int16> {
    seq(|src|, i requires 0 <= i < |src| => DecodeByte(src[i]))
  }

  function EncodeAll(src: seq<int16>): seq<byte> {
    seq(|src|, i requires 0 <= i < |src| => Encode(src[i]))
  }

  // ---- the decode grid -------------------------------------------------------------------

  lemma Pow2Values()
    ensures Pow2(0) == 1 && Pow2(1) == 2 && Pow2(2) == 4 && Pow2(3) == 8
    ensures Pow2(4) == 16 && Pow2(5) == 32 && Pow2(6) == 64 && Pow2(7) == 128
  {
    assert Pow2(4) == 2 * Pow2(3);
    assert Pow2(5) == 2 * Pow2(4);
    assert Pow2(6) == 2 * Pow2(5);
    assert Pow2(7) == 2 * Pow2(6);
  }

  /** The same grid without a power: one linear formula per segment. */
  lemma MagnitudeLinear(c: int, e: int)
    requires 0 <= c < 128 && e == c / 16
    ensures Magnitude(c) == if e == 0 then 8 * (c % 16)
                            else if e == 1 then 16 * (c % 16) + 132
                            else if e == 2 then 32 * (c % 16) + 396
                            else if e == 3 then 64 * (c % 16) + 924
                            else if e == 4 then 128 * (c % 16) + 1980
                            else if e == 5 then 256 * (c % 16) + 4092
                            else if e == 6 then 512 * (c % 16) + 8316
                            else 1024 * (c % 16) + 16764
  {
    Pow2Values();
    var m := c % 16;
    if e == 0 { assert Pow2(e) == 1; }
    else if e == 1 { assert Pow2(e) == 2; }
    else if e == 2 { assert Pow2(e) == 4; }
    else if e == 3 { assert Pow2(e) == 8; }
    else if e == 4 { assert Pow2(e) == 16; }
    else if e == 5 { assert Pow2(e) == 32; }
    else if e == 6 { assert Pow2(e) == 64; }
    else { assert e == 7; assert Pow2(e) == 128; }
  }

  /** The clip branch of the decoder never fires: the largest magnitude is 32124. */
  lemma MagnitudeRange(c: int)
    requires 0 <= c < 128
    ensures 0 <= Magnitude(c) <= 32124 < MULAW_CLIP
  {
    MagnitudeLinear(c, c / 16);
  }

  lemma MagnitudeStep(c: int)
    requires 0 <= c < 127
    ensures Magnitude(c) < Magnitude(c + 1)
  {
    MagnitudeLinear(c, c / 16);
    MagnitudeLinear(c + 1, (c + 1) / 16);
  }

  lemma {:induction false} MagnitudeIncreases(c: int, d: int)
    requires 0 <= c < d < 128
    ensures Magnitude(c) < Magnitude(d)
    decreases d - c
  {
    MagnitudeStep(d - 1);
    if c >= d - 1 {
    } else {
      MagnitudeIncreases(c, d - 1);
    }
  }

  lemma ZeroCodes()
    ensures DecodeByte(0x7F) == 0 && DecodeByte(0xFF) == 0
  {
    MagnitudeLinear(0, 0);
  }

  lemma DecodeIs(b: byte)
    ensures DecodeByte(b) == if b < 128 then -Magnitude(127 - b) else Magnitude(255 - b)
  {
    var c := if b < 128 then 127 - b else 255 - b;
    assert (255 - b) % 128 == c;
    MagnitudeRange(c);
    hide Magnitude;
  }

  /** The four corners of the G.711 table, and the sign bit: codes below 0x80 are negative or zero. */
  lemma DecodeCorners(b: byte)
    ensures DecodeByte(0x00) == -32124 && DecodeByte(0x80) == 32124
    ensures DecodeByte(0x7F) == 0 && DecodeByte(0xFF) == 0
    ensures DecodeByte(0x7E) == -8 && DecodeByte(0xFE) == 8
    ensures b < 0x80 ==> DecodeByte(b) <= 0 && DecodeByte(b + 0x80) == -DecodeByte(b)
  {
    hide DecodeByte, Magnitude;
    ZeroCodes();
    DecodeIs(0x00);
    DecodeIs(0x80);
    DecodeIs(0x7E);
    DecodeIs(0xFE);
    MagnitudeLinear(127, 7);
    MagnitudeLinear(1, 0);
    if b < 0x80 {
      DecodeIs(b);
      DecodeIs(b + 0x80);
      MagnitudeRange(127 - b);
    }
  }

  /** From code to code the magnitude grows by a step that doubles with each of the eight segments. */
  lemma SegmentSteps(c: int)
    requires 0 <= c < 127
    ensures Magnitude(0) == 0
    ensures Magnitude(c + 1) - Magnitude(c) == (if (c + 1) % 16 == 0 then 6 else 8) * Pow2((c + 1) / 16)
  {
    Pow2Values();
    MagnitudeLinear(c, c / 16);
    MagnitudeLinear(c + 1, (c + 1) / 16);
    MagnitudeLinear(0, 0);
  }

  /** Decoding is injective but for the two zeros 0x7F and 0xFF. */
  lemma DecodeInjective(a: byte, b: byte)
    ensures DecodeByte(a) == DecodeByte(b) <==> a == b || (a == 0x7F && b == 0xFF) || (a == 0xFF && b == 0x7F)
  {
    ZeroCodes();
    hide DecodeByte, Magnitude;
    DecodeIs(a);
    DecodeIs(b);
    var c, d := if a < 128 then 127 - a else 255 - a, if b < 128 then 127 - b else 255 - b;
    MagnitudeRange(c);
    MagnitudeRange(d);
    if c > 0 {
      MagnitudeIncreases(0, c);
    }
    if d > 0 {
      MagnitudeIncreases(0, d);
    }
    MagnitudeRange(0);
    if c < d {
      MagnitudeIncreases(c, d);
    } else if d < c {
      MagnitudeIncreases(d, c);
    }
  }

  // ---- the encoder -----------------------------------------------------------------------

  lemma {:induction false} ScanIsFirstNearest(s: int16, n: int, b: byte)
    requires 1 <= n <= 256 && b < n
    ensures Scan(s, n) < n
    ensures Dist(Scan(s, n), s) <= Dist(b, s)
    ensures b < Scan(s, n) ==> Dist(Scan(s, n), s) < Dist(b, s)
    decreases n
  {
    hide Dist;
    if n <= 1 {
    } else {
      ScanIsFirstNearest(s, n - 1, if b < n - 1 then b else 0);
    }
  }

  /** The table entry for s is a nearest code, and the smallest such code. */
  lemma EncodeIsFirstNearest(s: int16)
    ensures IsNearest(s, Encode(s))
    ensures forall b: byte :: IsNearest(s, b) ==> Encode(s) <= b
  {
    forall b: byte
      ensures Dist(Encode(s), s) <= Dist(b, s)
      ensures b < Encode(s) ==> Dist(Encode(s), s) < Dist(b, s)
    {
      ScanIsFirstNearest(s, 256, b);
    }
  }

  /** Re-encoding a decoded code returns it, for every code but 0xFF (which becomes 0x7F). */
  lemma EncodeDecode(b: byte)
    ensures Encode(DecodeByte(b)) == if b == 0xFF then 0x7F else b
    ensures Encode(DecodeByte(b)) == b <==> b != 0xFF
  {
    hide Magnitude, Scan, DecodeByte;
    var v := DecodeByte(b);
    var r := Scan(v, 256);
    ScanIsFirstNearest(v, 256, b);
    DecodeInjective(r, b);
    ZeroCodes();
    ScanIsFirstNearest(v, 256, 0x7F);
  }

  /** Silence encodes to 0x7F, not to the 0xFF that pads short frames. */
  lemma SilenceEncodesTo7F()
    ensures Encode(0) == 0x7F && DecodeByte(0x7F) == DecodeByte(0xFF) == 0
  {
    ZeroCodes();
    EncodeDecode(0xFF);
  }

  /** The codes of one segment are step apart from base: the nearest of them, or the next segment's first. */
  function NearbyIn(e: int, base: int, step: int, a: int): int
    requires step > 0
  {
    var m := (a - base + step / 2) / step;
    if e < 7 && 4 * (a - base) >= 63 * step then 16 * (e + 1) else 16 * e + if m > 15 then 15 else m
  }

  /** A code within the error bound of magnitude a: the segment of a + 132, nearest step. */
  lemma NearbyCode(a: int) returns (c: int)
    requires 0 <= a <= 0x8000
    ensures 0 <= c < 128 && 34 * Abs(Magnitude(c) - a) <= a + 132
  {
    if a < 924 {
      c := NearbyQuiet(a);
    } else if a < 8316 {
      c := NearbyMedium(a);
    } else {
      c := NearbyLoud(a);
    }
  }

  lemma NearbyQuiet(a: int) returns (c: int)
    requires 0 <= a < 924
    ensures 0 <= c < 128 && 34 * Abs(Magnitude(c) - a) <= a + 132
  {
    c := if a < 132 then NearbyIn(0, 0, 8, a) else if a < 396 then NearbyIn(1, 132, 16, a)
         else NearbyIn(2, 396, 32, a);
    MagnitudeLinear(c, c / 16);
  }

  lemma NearbyMedium(a: int) returns (c: int)
    requires 924 <= a < 8316
    ensures 0 <= c < 128 && 34 * Abs(Magnitude(c) - a) <= a + 132
  {
    c := if a < 1980 then NearbyIn(3, 924, 64, a) else if a < 4092 then NearbyIn(4, 1980, 128, a)
         else NearbyIn(5, 4092, 256, a);
    MagnitudeLinear(c, c / 16);
  }

  lemma NearbyLoud(a: int) returns (c: int)
    requires 8316 <= a <= 0x8000
    ensures 0 <= c < 128 && 34 * Abs(Magnitude(c) - a) <= a + 132
  {
    c := if a < 16764 then NearbyIn(6, 8316, 512, a) else NearbyIn(7, 16764, 1024, a);
    MagnitudeLinear(c, c / 16);
  }

  /** Relative quantisation error of one encode/decode pass, for every sample and tie-break. */
  lemma QuantiserError(s: int16, b: byte)
    requires IsNearest(s, b)
    ensures 34 * Abs(DecodeByte(b) - s) <= Abs(s) + 132
  {
    hide DecodeByte, Magnitude;
    var c := NearbyCode(Abs(s));
    var b': byte := if s < 0 then 127 - c else 255 - c;
    DecodeIs(b');
    assert Dist(b, s) <= Dist(b', s);
  }

  /** Quantisation never reorders samples, under any tie-break. */
  lemma QuantiserMonotone(s: int16, t: int16, b: byte, c: byte)
    requires s < t && IsNearest(s, b) && IsNearest(t, c)
    ensures DecodeByte(b) <= DecodeByte(c)
  {
    assert Dist(b, s) <= Dist(c, s);
    assert Dist(c, t) <= Dist(b, t);
  }

  /** Both facts for the table itself. */
  lemma TableQuality(s: int16, t: int16)
    requires s <= t
    ensures 34 * Abs(DecodeByte(Encode(s)) - s) <= Abs(s) + 132
    ensures DecodeByte(Encode(s)) <= DecodeByte(Encode(t))
  {
    EncodeIsFirstNearest(s);
    EncodeIsFirstNearest(t);
    QuantiserError(s, Encode(s));
    if s < t {
      QuantiserMonotone(s, t, Encode(s), Encode(t));
    }
  }

  // ---- the tables ------------------------------------------------------------------------

  /** uint16(sample): the bit pattern that indexes the encode table. */
  function Index(s: int16): int {
    if s < 0 then s + 0x10000 else s
  }

  class Tables {
    const decode: array<int16>
    const encode: array<byte>

    ghost predicate Valid()
      reads decode, encode
    {
      && decode.Length == 256 && encode.Length == 0x10000
      && (forall b: byte :: decode[b] == DecodeByte(b))
      && (forall s: int16 :: encode[Index(s)] == Encode(s))
    }

    constructor ()
      ensures Valid() && fresh(decode) && fresh(encode)
    {
      decode := new int16[256](_ => 0);
      encode := new byte[0x10000](_ => 0);
      new;
      FillDecode();
      FillEncode();
    }

    method FillDecode()
      requires decode.Length == 256 && decode as object != encode
      modifies decode
      ensures forall b: byte :: decode[b] == DecodeByte(b)
    {
      for i := 0 to 256
        invariant forall b: byte :: b < i ==> decode[b] == DecodeByte(b)
      {
        decode[i] := DecodeByte(i);
      }
    }

    method FillEncode()
      requires decode.Length == 256 && encode.Length == 0x10000 && decode as object != encode
      requires forall b: byte :: decode[b] == DecodeByte(b)
      modifies encode
      ensures forall s: int16 :: encode[Index(s)] == Encode(s)
    {
      for sample := -32768 to 32768
        invariant forall s: int16 :: s < sample ==> encode[Index(s)] == Encode(s)
        invariant forall b: byte :: decode[b] == DecodeByte(b)
      {
        var best := Argmin(sample);
        encode[Index(sample)] := best;
      }
    }

    /** The inner loop of the table construction. */
    method Argmin(sample: int16) returns (best: byte)
      requires decode.Length == 256
      requires forall b: byte :: decode[b] == DecodeByte(b)
      ensures best == Encode(sample)
    {
      best := 0;
      var bestDiff := 0x4000_0000;
      for b := 0 to 256
        invariant b == 0 ==> best == 0 && bestDiff == 0x4000_0000
        invariant b > 0 ==> best == Scan(sample, b) && bestDiff == Dist(best, sample)
      {
        var diff := decode[b] - sample;
        if diff < 0 {
          diff := -diff;
        }
        if diff < bestDiff {
          bestDiff := diff;
          best := b;
        }
      }
    }

    method DecodeMulaw(dst: seq<int16>, src: seq<byte>) returns (out: seq<int16>)
      requires Valid()
      ensures out == dst + DecodeAll(src)
    {
      out := dst;
      for i := 0 to |src|
        invariant out == dst + DecodeAll(src)[..i]
      {
        out := out + [decode[src[i]]];
      }
    }

    method EncodeMulaw(dst: seq<byte>, src: seq<int16>) returns (out: seq<byte>)
      requires Valid()
      ensures out == dst + EncodeAll(src)
    {
      out := dst;
      for i := 0 to |src|
        invariant out == dst + EncodeAll(src)[..i]
      {
        out := out + [encode[Index(src[i])]];
      }
    }
  }
}
