/** The composed pipelines of internal/audio/transcoder.go. */
module Transcoder {
  import opened Common
  import opened Resample
  import opened Streaming
  import Division
  import Lowpass
  import Mulaw
  import Pcm
  import Signal

  const TELEPHONY_RATE := 8000

  type Coefficients = Option<seq<real>>

  /** PCM16LE bytes the caller's mu-law stream becomes at hz. */
  ghost function InputSpec(coeffs: Coefficients, hz: int, stream: seq<byte>): seq<byte>
    requires hz > 0
  {
    Pcm.Bytes(Converted(coeffs, Mulaw.DecodeAll(stream), TELEPHONY_RATE, hz))
  }

  /** Mu-law bytes the backend's PCM16LE stream at hz becomes. */
  ghost function OutputSpec(coeffs: Coefficients, hz: int, stream: seq<byte>): seq<byte>
    requires hz > 0
  {
    Mulaw.EncodeAll(Converted(coeffs, Pcm.Samples(stream), hz, TELEPHONY_RATE))
  }

  lemma EncodeStep(out: seq<int16>, before: seq<int16>, after: seq<int16>)
    requires Emits([], out, before, after)
    ensures Emits([], Mulaw.EncodeAll(out), Mulaw.EncodeAll(before), Mulaw.EncodeAll(after))
  {
    EmitsIsSuffix(out, before, after);
    hide Mulaw.Encode;
    assert Mulaw.EncodeAll(before + out) == Mulaw.EncodeAll(before) + Mulaw.EncodeAll(out);
    EmitsIsSuffix(Mulaw.EncodeAll(out), Mulaw.EncodeAll(before), Mulaw.EncodeAll(after));
  }

  lemma BytesStep(out: seq<int16>, before: seq<int16>, after: seq<int16>)
    requires Emits([], out, before, after)
    ensures Emits([], Pcm.Bytes(out), Pcm.Bytes(before), Pcm.Bytes(after))
  {
    EmitsIsSuffix(out, before, after);
    Pcm.BytesConcat(before, out);
    EmitsIsSuffix(Pcm.Bytes(out), Pcm.Bytes(before), Pcm.Bytes(after));
  }

  // ---- whole-pipeline facts --------------------------------------------------------------

  /** Bytes out depend only on bytes in, through an exact closed form. */
  lemma OutputCounts(coeffs: Coefficients, hz: int, stream: seq<byte>)
    requires hz > 0
    ensures |OutputSpec(coeffs, hz, stream)| == Count(|stream| / 2, hz, TELEPHONY_RATE)
    ensures |InputSpec(coeffs, hz, stream)| == 2 * Count(|stream|, TELEPHONY_RATE, hz)
  {
    hide Converted, Mulaw.Encode, Mulaw.DecodeByte, Pcm.Samples, Pcm.Bytes, Count;
    ConvertedCount(coeffs, Pcm.Samples(stream), hz, TELEPHONY_RATE);
    ConvertedCount(coeffs, Mulaw.DecodeAll(stream), TELEPHONY_RATE, hz);
  }

  /** Later bytes never change what earlier ones became. */
  lemma SpecsGrow(coeffs: Coefficients, hz: int, x: seq<byte>, y: seq<byte>)
    requires hz > 0
    ensures OutputSpec(coeffs, hz, x) <= OutputSpec(coeffs, hz, x + y)
    ensures InputSpec(coeffs, hz, x) <= InputSpec(coeffs, hz, x + y)
  {
    hide Converted, Mulaw.Encode, Mulaw.DecodeByte, Pcm.Samples, Pcm.Bytes;
    var a, b := Pcm.Samples(x), Pcm.Samples(x + y);
    Pcm.SamplesPrefix(x, y);
    assert b == a + b[|a|..];
    ConvertedPrefix(coeffs, a, b[|a|..], hz, TELEPHONY_RATE);
    assert Mulaw.DecodeAll(x + y) == Mulaw.DecodeAll(x) + Mulaw.DecodeAll(y);
    ConvertedPrefix(coeffs, Mulaw.DecodeAll(x), Mulaw.DecodeAll(y), TELEPHONY_RATE, hz);
    BytesGrow(Converted(coeffs, Mulaw.DecodeAll(x), TELEPHONY_RATE, hz),
              Converted(coeffs, Mulaw.DecodeAll(x + y), TELEPHONY_RATE, hz));
  }

  lemma BytesGrow(a: seq<int16>, b: seq<int16>)
    requires a <= b
    ensures Pcm.Bytes(a) <= Pcm.Bytes(b)
  {
    Pcm.BytesConcat(a, b[|a|..]);
    assert b == a + b[|a|..];
  }

  lemma SpecsOfNothing(coeffs: Coefficients, hz: int)
    requires hz > 0
    ensures OutputSpec(coeffs, hz, []) == [] && InputSpec(coeffs, hz, []) == []
  {
    OutputCounts(coeffs, hz, []);
  }

  /** For every split of a byte stream, the pieces transcode to what one call on the whole would. */
  lemma EverySplitIsOneCall(coeffs: Coefficients, hz: int, chunks: seq<seq<byte>>, outs: seq<seq<byte>>)
    requires hz > 0
    ensures IsRun(b => OutputSpec(coeffs, hz, b), chunks, outs) ==>
      Flatten(outs) == OutputSpec(coeffs, hz, Flatten(chunks))
    ensures IsRun(b => InputSpec(coeffs, hz, b), chunks, outs) ==>
      Flatten(outs) == InputSpec(coeffs, hz, Flatten(chunks))
  {
    hide OutputSpec, InputSpec;
    SpecsOfNothing(coeffs, hz);
    if IsRun(b => OutputSpec(coeffs, hz, b), chunks, outs) {
      RunOutput(b => OutputSpec(coeffs, hz, b), chunks, outs);
    }
    if IsRun(b => InputSpec(coeffs, hz, b), chunks, outs) {
      RunOutput(b => InputSpec(coeffs, hz, b), chunks, outs);
    }
  }

  /** A silent PCM stream becomes 0x7F bytes from the first output on, at any rate. */
  lemma SilenceOutput(coeffs: Coefficients, hz: int, stream: seq<byte>, j: nat)
    requires hz > 0 && j < |OutputSpec(coeffs, hz, stream)|
    requires forall i :: 0 <= i < |Pcm.Samples(stream)| ==> Pcm.Samples(stream)[i] == 0
    ensures OutputSpec(coeffs, hz, stream)[j] == 0x7F
  {
    hide Mulaw.Encode, Pcm.Samples;
    SilenceConverted(coeffs, Pcm.Samples(stream), hz, TELEPHONY_RATE, j);
    Mulaw.SilenceEncodesTo7F();
  }

  /** Byte j of the output that falls on sample g: the code of the sample, or of what the taps make of it. */
  lemma OutputOnSample(taps: seq<real>, hz: int, stream: seq<byte>, j: nat, g: nat)
    requires hz > 0 && j < Count(|stream| / 2, hz, 8000) && j * hz == g * 8000
    ensures g < |Pcm.Samples(stream)| && j < |OutputSpec(None, hz, stream)| == |OutputSpec(Some(taps), hz, stream)|
    ensures OutputSpec(None, hz, stream)[j] == Mulaw.Encode(Pcm.Samples(stream)[g])
    ensures OutputSpec(Some(taps), hz, stream)[j]
         == Mulaw.Encode(Signal.Clamp(Lowpass.Superposed(taps, Pcm.Samples(stream), g)))
  {
    hide Mulaw.Encode, Signal.Clamp, Lowpass.Superposed, Converted;
    OnSample(taps, Pcm.Samples(stream), hz, 8000, j, g);
  }

  /** A click in the backend's audio reaches the caller as the code of one designed tap times the click. */
  lemma ImpulseOutput(taps: seq<real>, hz: int, stream: seq<byte>, p: nat, h: int16, j: nat, g: nat)
    requires hz > 0 && j < Count(|stream| / 2, hz, 8000) && j * hz == g * 8000
    requires p < |stream| / 2 && Lowpass.IsImpulse(Pcm.Samples(stream), p, h)
    ensures j < |OutputSpec(Some(taps), hz, stream)|
    ensures OutputSpec(Some(taps), hz, stream)[j]
         == Mulaw.Encode(Signal.Clamp(if 0 <= g - p < |taps| then taps[g - p] * h as real else 0.0))
  {
    hide Mulaw.Encode, Signal.Clamp, Converted, Lowpass.IsImpulse, Pcm.Samples;
    ImpulseConverted(taps, Pcm.Samples(stream), p, h, hz, 8000, j, g);
  }

  /** Sample j of the input that falls on code g: the decoded code, or what the taps make of it. */
  lemma InputOnSample(taps: seq<real>, hz: int, stream: seq<byte>, j: nat, g: nat)
    requires hz > 0 && j < Count(|stream|, 8000, hz) && j * 8000 == g * hz
    ensures g < |stream|
    ensures j < |Pcm.Samples(InputSpec(None, hz, stream))| == |Pcm.Samples(InputSpec(Some(taps), hz, stream))|
    ensures Pcm.Samples(InputSpec(None, hz, stream))[j] == Mulaw.DecodeByte(stream[g])
    ensures Pcm.Samples(InputSpec(Some(taps), hz, stream))[j]
         == Signal.Clamp(Lowpass.Superposed(taps, Mulaw.DecodeAll(stream), g))
  {
    hide Mulaw.DecodeByte, Signal.Clamp, Lowpass.Superposed, Converted, Pcm.Samples, Pcm.Bytes;
    OnSample(taps, Mulaw.DecodeAll(stream), 8000, hz, j, g);
    Pcm.SamplesOfBytes(Converted(None, Mulaw.DecodeAll(stream), 8000, hz));
    Pcm.SamplesOfBytes(Converted(Some(taps), Mulaw.DecodeAll(stream), 8000, hz));
  }

  /** Whole seconds of sound stay whole seconds, less the four samples the interpolation waits for. */
  lemma SecondsOfAudio(coeffs: Coefficients, hz: int, seconds: nat, pcm: seq<byte>, mulaw: seq<byte>)
    requires hz > 0
    ensures |pcm| == 2 * (hz * seconds) && hz * seconds > 4 ==>
      |OutputSpec(coeffs, hz, pcm)| == 8000 * seconds - 32000 / hz
    ensures |mulaw| == 8000 * seconds && seconds > 0 ==>
      |InputSpec(coeffs, hz, mulaw)| == 2 * (hz * seconds - 4 * hz / 8000)
  {
    hide OutputSpec, InputSpec;
    OutputCounts(coeffs, hz, pcm);
    OutputCounts(coeffs, hz, mulaw);
    if hz * seconds > 4 {
      CountOfSeconds(hz, 8000, seconds);
    }
    if seconds > 0 {
      CountOfSeconds(8000, hz, seconds);
    }
  }

  lemma CountOfSeconds(fromHz: int, toHz: int, seconds: nat)
    requires fromHz > 0 && toHz > 0 && fromHz * seconds > 4
    ensures Count(fromHz * seconds, fromHz, toHz) == toHz * seconds - 4 * toHz / fromHz
  {
    var late := 4 * toHz / fromHz;
    var due := (fromHz * seconds - 4) * toHz + fromHz - 1;
    Division.DivBounds(4 * toHz, fromHz);
    assert (fromHz * seconds) * toHz == (toHz * seconds) * fromHz;
    assert (toHz * seconds - late) * fromHz == (toHz * seconds) * fromHz - late * fromHz;
    Division.DivUnique(due, fromHz, toHz * seconds - late);
  }

  /** A code that survives decoding and re-encoding. */
  function Canonical(b: byte): byte {
    if b == 0xFF then 0x7F else b
  }

  ghost function CutTail(n: nat): nat {
    if n <= 4 then 0 else n - 4
  }

  /** Through both pipelines at 8000 Hz a mu-law stream comes back, eight samples late. */
  lemma RoundTripAtTelephonyRate(stream: seq<byte>)
    ensures var n := CutTail(CutTail(|stream|));
      OutputSpec(None, TELEPHONY_RATE, InputSpec(None, TELEPHONY_RATE, stream))
        == seq(n, i requires 0 <= i < n => Canonical(stream[i]))
  {
    var linear := Mulaw.DecodeAll(stream);
    var m, n := CutTail(|stream|), CutTail(CutTail(|stream|));
    hide Pcm.Bytes, Pcm.Samples, Mulaw.EncodeAll, Mulaw.DecodeAll, Resampled;
    IdentityRate(linear, TELEPHONY_RATE);
    IdentityRate(linear[..m], TELEPHONY_RATE);
    Pcm.SamplesOfBytes(linear[..m]);
    assert linear[..m][..n] == linear[..n];
    hide Converted;
    EncodeDecodePrefix(stream, n);
  }

  lemma EncodeDecodePrefix(stream: seq<byte>, n: nat)
    requires n <= |stream|
    ensures |Mulaw.DecodeAll(stream)| == |stream|
    ensures Mulaw.EncodeAll(Mulaw.DecodeAll(stream)[..n]) == seq(n, i requires 0 <= i < n => Canonical(stream[i]))
  {
    hide Mulaw.Encode, Mulaw.DecodeByte;
    var linear := Mulaw.DecodeAll(stream);
    forall i | 0 <= i < n
      ensures Mulaw.EncodeAll(linear[..n])[i] == Canonical(stream[i])
    {
      Mulaw.EncodeDecode(stream[i]);
    }
  }

  // ---- the transcoders -------------------------------------------------------------------

  class InputTranscoder {
    const tables: Mulaw.Tables
    const resampler: Resampler
    const outputHz: int
    /** Every mu-law byte transcoded so far. */
    ghost var stream: seq<byte>

    ghost function Parts(): set<object> {
      {this, tables.decode, tables.encode, resampler} + resampler.Parts()
    }

    ghost predicate Valid()
      reads Parts()
    {
      && {this, tables.decode, tables.encode, resampler} !! resampler.Parts()
      && outputHz > 0 && tables.Valid() && resampler.Valid()
      && resampler.fromHz == TELEPHONY_RATE && resampler.toHz == outputHz
      && resampler.stream == Mulaw.DecodeAll(stream)
    }

    ghost function Spec(bytes: seq<byte>): seq<byte>
      requires outputHz > 0
    {
      InputSpec(resampler.Coeffs(), outputHz, bytes)
    }

    constructor (outputHz: int, tables: Mulaw.Tables, trig: Lowpass.Trig)
      requires outputHz > 0 && trig.Valid() && tables.Valid()
      requires outputHz < TELEPHONY_RATE ==> Lowpass.RawGain(TELEPHONY_RATE, outputHz, trig) != 0.0
      ensures Valid() && stream == [] && this.outputHz == outputHz && this.tables == tables
      ensures fresh(resampler) && fresh(resampler.Parts())
      ensures resampler.Coeffs().Some? <==> outputHz < TELEPHONY_RATE
      ensures outputHz < TELEPHONY_RATE ==>
        Lowpass.IsDesign(resampler.Coeffs().value, TELEPHONY_RATE, outputHz, trig)
    {
      hide Resampler.Valid, Mulaw.Tables.Valid, Lowpass.RawGain, Lowpass.Trig.Valid, Lowpass.Total;
      hide Lowpass.LinearPhase, Lowpass.IsDesign;
      hide Mulaw.DecodeByte;
      this.outputHz, this.tables := outputHz, tables;
      resampler := new Resampler(TELEPHONY_RATE, outputHz, true, trig);
      stream := [];
    }

    method Transcode(mulawPCMU: seq<byte>) returns (out: seq<byte>)
      requires Valid()
      modifies this, resampler, resampler.Parts()
      ensures Valid() && stream == old(stream) + mulawPCMU
      ensures Emits([], out, Spec(old(stream)), Spec(stream))
    {
      hide Converted, Mulaw.DecodeByte, Mulaw.Encode, Resampler.Valid, Mulaw.Tables.Valid, Pcm.Bytes;
      ghost var all := stream + mulawPCMU;
      assert Mulaw.DecodeAll(all) == Mulaw.DecodeAll(stream) + Mulaw.DecodeAll(mulawPCMU);
      var linear := tables.DecodeMulaw([], mulawPCMU);
      assert linear == Mulaw.DecodeAll(mulawPCMU);
      var resampled := resampler.Process([], linear);
      out := Pcm.SamplesToBytesLE([], resampled);
      ghost var c := resampler.Coeffs();
      BytesStep(resampled, Converted(c, Mulaw.DecodeAll(stream), TELEPHONY_RATE, outputHz),
                Converted(c, Mulaw.DecodeAll(all), TELEPHONY_RATE, outputHz));
      stream := all;
    }
  }

  class OutputTranscoder {
    const tables: Mulaw.Tables
    const decoder: Pcm.PCM16LEDecoder
    const resampler: Resampler
    const inputHz: int
    /** Every PCM byte transcoded so far. */
    ghost var stream: seq<byte>

    ghost function Parts(): set<object> {
      {this, tables.decode, tables.encode, decoder, resampler} + resampler.Parts()
    }

    ghost predicate Valid()
      reads Parts()
    {
      && {this, tables.decode, tables.encode, decoder, resampler} !! resampler.Parts()
      && inputHz > 0 && tables.Valid() && decoder.Valid() && resampler.Valid()
      && resampler.fromHz == inputHz && resampler.toHz == TELEPHONY_RATE
      && decoder.stream == stream && resampler.stream == Pcm.Samples(stream)
    }

    ghost function Spec(bytes: seq<byte>): seq<byte>
      requires inputHz > 0
    {
      OutputSpec(resampler.Coeffs(), inputHz, bytes)
    }

    constructor (inputHz: int, tables: Mulaw.Tables, trig: Lowpass.Trig)
      requires inputHz > 0 && trig.Valid() && tables.Valid()
      requires TELEPHONY_RATE < inputHz ==> Lowpass.RawGain(inputHz, TELEPHONY_RATE, trig) != 0.0
      ensures Valid() && stream == [] && this.inputHz == inputHz && this.tables == tables
      ensures fresh(resampler) && fresh(resampler.Parts()) && fresh(decoder)
      ensures resampler.Coeffs().Some? <==> TELEPHONY_RATE < inputHz
      ensures TELEPHONY_RATE < inputHz ==>
        Lowpass.IsDesign(resampler.Coeffs().value, inputHz, TELEPHONY_RATE, trig)
    {
      hide Resampler.Valid, Mulaw.Tables.Valid, Pcm.PCM16LEDecoder.Valid, Lowpass.RawGain, Lowpass.Trig.Valid;
      hide Lowpass.Total, Lowpass.LinearPhase, Lowpass.IsDesign;
      this.inputHz, this.tables := inputHz, tables;
      decoder := new Pcm.PCM16LEDecoder();
      resampler := new Resampler(inputHz, TELEPHONY_RATE, true, trig);
      stream := [];
    }

    method Transcode(pcm16LE: seq<byte>) returns (out: seq<byte>)
      requires Valid()
      modifies this, decoder, resampler, resampler.Parts()
      ensures Valid() && stream == old(stream) + pcm16LE
      ensures Emits([], out, Spec(old(stream)), Spec(stream))
    {
      hide Converted, Mulaw.Encode, Pcm.Samples, Resampler.Valid, Mulaw.Tables.Valid, Pcm.PCM16LEDecoder.Valid;
      ghost var all := stream + pcm16LE;
      var samples := decoder.Decode([], pcm16LE);
      EmitsIsSuffix(samples, Pcm.Samples(stream), Pcm.Samples(all));
      var resampled := resampler.Process([], samples);
      out := tables.EncodeMulaw([], resampled);
      ghost var c := resampler.Coeffs();
      EncodeStep(resampled, Converted(c, Pcm.Samples(stream), inputHz, TELEPHONY_RATE),
                 Converted(c, Pcm.Samples(all), inputHz, TELEPHONY_RATE));
      stream := all;
    }
  }
}
