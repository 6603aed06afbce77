/** Sample streams with silence before their start, and the float-to-sample rounding of the source. */
module Signal {
  import opened Common

  /** Sample i of a stream; zero before the stream starts. */
  function At(x: seq<int16>, i: int): int16 {
    if 0 <= i < |x| then x[i] else 0
  }

  /** math.Round: halves go away from zero. */
  function Round(v: real): int {
    if v >= 0.0 then (v + 0.5).Floor else -((0.5 - v).Floor)
  }

  /** clampToInt16. */
  function Clamp(v: real): int16 {
    if v > 32767.0 then 32767
    else if v < -32768.0 then -32768
    else Round(v)
  }

  function AbsReal(v: real): real {
    if v < 0.0 then -v else v
  }

  lemma RoundBounds(v: real)
    ensures v >= 0.0 ==> v - 0.5 < Round(v) as real <= v + 0.5
    ensures v < 0.0 ==> v - 0.5 <= Round(v) as real < v + 0.5
  {
  }

  /** The clamped sample is a nearest 16-bit sample, and ties go away from zero. */
  lemma ClampIsNearest(v: real, s: int16)
    ensures AbsReal(Clamp(v) as real - v) <= AbsReal(s as real - v)
    ensures s != Clamp(v) && AbsReal(Clamp(v) as real - v) == AbsReal(s as real - v) ==>
      AbsReal(s as real) < AbsReal(Clamp(v) as real)
  {
    var r := Clamp(v);
    if -32768.0 <= v <= 32767.0 {
      RoundBounds(v);
      hide Round;
      if s > r {
        assert s as real >= r as real + 1.0;
      } else if s < r {
        assert s as real <= r as real - 1.0;
      }
    }
  }

  lemma ClampOfSample(s: int16)
    ensures Clamp(s as real) == s
  {
  }
}
