/** Little-endian PCM16 framing of internal/audio/pcm.go. */
module Pcm {
  import opened Common

  /** int16(binary.LittleEndian.Uint16([lo, hi])). */
  function FromLE(lo: byte, hi: byte): int16 {
    var u := lo + 0x100 * hi;
    if u < 0x8000 then u else u - 0x10000
  }

  /** binary.LittleEndian.AppendUint16(nil, uint16(s)). */
  function ToLE(s: int16): seq<byte> {
    var u := if s < 0 then s + 0x10000 else s;
    [u % 0x100, u / 0x100]
  }

  /** The samples of a whole byte stream; a trailing odd byte is not a sample yet. */
  function Samples(bytes: seq<byte>): (r: seq<int16>)
    ensures |r| == |bytes| / 2
  {
    if |bytes| < 2 then [] else [FromLE(bytes[0], bytes[1])] + Samples(bytes[2..])
  }

  function Bytes(samples: seq<int16>): (r: seq<byte>)
    ensures |r| == 2 * |samples|
  {
    if samples == [] then [] else ToLE(samples[0]) + Bytes(samples[1..])
  }

  lemma FirstSample(lo: byte, hi: byte, rest: seq<byte>)
    ensures Samples([lo, hi] + rest) == [FromLE(lo, hi)] + Samples(rest)
  {
    assert ([lo, hi] + rest)[2..] == rest;
  }

  lemma {:induction false} SamplesConcat(a: seq<byte>, b: seq<byte>)
    requires |a| % 2 == 0
    ensures Samples(a + b) == Samples(a) + Samples(b)
  {
    if a == [] {
      assert a + b == b;
    } else {
      hide *;
      SamplesConcat(a[2..], b);
      FirstSample(a[0], a[1], a[2..]);
      FirstSample(a[0], a[1], a[2..] + b);
      assert [a[0], a[1]] + a[2..] == a;
      assert [a[0], a[1]] + (a[2..] + b) == a + b;
    }
  }

  /** Later bytes never change a sample that is already complete. */
  lemma {:induction false} SamplesPrefix(a: seq<byte>, b: seq<byte>)
    ensures Samples(a) <= Samples(a + b)
  {
    hide FromLE;
    if |a| < 2 {
    } else {
      assert (a + b)[2..] == a[2..] + b;
      SamplesPrefix(a[2..], b);
    }
  }

  /** Appending a whole little-endian pair appends one sample. */
  lemma SamplesSnoc(a: seq<byte>, lo: byte, hi: byte)
    requires |a| % 2 == 0
    ensures Samples(a + [lo, hi]) == Samples(a) + [FromLE(lo, hi)]
  {
    SamplesConcat(a, [lo, hi]);
    assert [lo, hi][2..] == [];
  }

  /** A byte that only completes half a pair adds no sample. */
  lemma SamplesOdd(a: seq<byte>, b: byte)
    requires |a| % 2 == 0
    ensures Samples(a + [b]) == Samples(a)
  {
    SamplesConcat(a, [b]);
  }

  /** The byte that completes a pending one adds the sample of the two. */
  lemma CompletesPair(a: seq<byte>, a': seq<byte>, whole: seq<byte>, lo: byte, hi: byte)
    requires |whole| % 2 == 0 && a == whole + [lo] && a' == whole + [lo, hi]
    ensures Samples(a') == Samples(a) + [FromLE(lo, hi)]
  {
    SamplesSnoc(whole, lo, hi);
    SamplesOdd(whole, lo);
  }

  lemma EmitPair(dst: seq<int16>, out: seq<int16>, before: seq<int16>, seen: seq<byte>, lo: byte, hi: byte)
    requires |seen| % 2 == 0 && Emits(dst, out, before, Samples(seen))
    ensures Emits(dst, out + [FromLE(lo, hi)], before, Samples(seen + [lo, hi]))
  {
    EmitMore(dst, out, before, Samples(seen), [FromLE(lo, hi)]);
    SamplesSnoc(seen, lo, hi);
  }

  lemma {:induction false} BytesConcat(a: seq<int16>, b: seq<int16>)
    ensures Bytes(a + b) == Bytes(a) + Bytes(b)
  {
    if a == [] {
      assert a + b == b;
    } else {
      assert (a + b)[1..] == a[1..] + b;
      BytesConcat(a[1..], b);
    }
  }

  /** Decoding what SamplesToBytesLE wrote gives the samples back. */
  lemma {:induction false} SamplesOfBytes(samples: seq<int16>)
    ensures Samples(Bytes(samples)) == samples
  {
    if samples == [] {
    } else {
      assert Bytes(samples)[2..] == Bytes(samples[1..]);
      SamplesOfBytes(samples[1..]);
    }
  }

  /** Writing what was decoded gives back every byte but a trailing odd one. */
  lemma {:induction false} BytesOfSamples(bytes: seq<byte>)
    ensures Bytes(Samples(bytes)) == bytes[..|bytes| / 2 * 2]
  {
    if |bytes| < 2 {
    } else {
      BytesOfSamples(bytes[2..]);
      ToLEOfFromLE(bytes[0], bytes[1]);
      hide ToLE, FromLE;
      assert bytes[..|bytes| / 2 * 2] == [bytes[0], bytes[1]] + bytes[2..][..|bytes[2..]| / 2 * 2];
      assert Samples(bytes)[1..] == Samples(bytes[2..]);
    }
  }

  lemma ToLEOfFromLE(lo: byte, hi: byte)
    ensures ToLE(FromLE(lo, hi)) == [lo, hi]
  {
  }

  /** The low byte of a sample comes first; a second byte of 0x80 or more is a negative sample. */
  lemma {:induction false} SampleAt(bytes: seq<byte>, i: nat)
    requires i < |bytes| / 2
    ensures Samples(bytes)[i] % 0x100 == bytes[2 * i]
    ensures Samples(bytes)[i] / 0x100 % 0x100 == bytes[2 * i + 1]
    ensures Samples(bytes)[i] < 0 <==> bytes[2 * i + 1] >= 0x80
  {
    if i == 0 {
    } else {
      hide FromLE;
      SampleAt(bytes[2..], i - 1);
      assert Samples(bytes)[i] == Samples(bytes[2..])[i - 1];
    }
  }

  lemma {:induction false} BytesAt(samples: seq<int16>, i: nat)
    requires i < |samples|
    ensures Bytes(samples)[2 * i] == samples[i] % 0x100
    ensures Bytes(samples)[2 * i + 1] == samples[i] / 0x100 % 0x100
  {
    if i == 0 {
    } else {
      BytesAt(samples[1..], i - 1);
      assert Bytes(samples)[2..] == Bytes(samples[1..]);
    }
  }

  method SamplesToBytesLE(dst: seq<byte>, src: seq<int16>) returns (out: seq<byte>)
    ensures out == dst + Bytes(src)
  {
    out := dst;
    for i := 0 to |src|
      invariant out == dst + Bytes(src[..i])
    {
      assert src[..i + 1] == src[..i] + [src[i]];
      BytesConcat(src[..i], [src[i]]);
      assert Bytes([src[i]]) == ToLE(src[i]) + Bytes([]);
      out := out + ToLE(src[i]);
    }
    assert src[..|src|] == src;
  }

  class PCM16LEDecoder {
    var pending: byte
    var hasPending: bool
    /** Every byte handed to Decode since construction or Reset. */
    ghost var stream: seq<byte>

    ghost predicate Valid()
      reads this
    {
      && (hasPending <==> |stream| % 2 == 1)
      && (hasPending ==> pending == stream[|stream| - 1])
    }

    constructor ()
      ensures Valid() && stream == []
    {
      pending, hasPending := 0, false;
      stream := [];
    }

    method Decode(dst: seq<int16>, src: seq<byte>) returns (out: seq<int16>)
      requires Valid()
      modifies this
      ensures Valid() && stream == old(stream) + src
      ensures Emits(dst, out, Samples(old(stream)), Samples(stream))
    {
      hide Samples, FromLE;
      out := dst;
      var i := 0;
      ghost var seen := stream;
      EmitNothing(dst, Samples(stream));
      if hasPending {
        if |src| == 0 {
          assert src == [] && stream + [] == stream;
          return;
        }
        out := out + [FromLE(pending, src[0])];
        hasPending := false;
        i := 1;
        seen := seen + [src[0]];
        CompletesPair(stream, seen, stream[..|stream| - 1], pending, src[0]);
        EmitMore(dst, dst, Samples(stream), Samples(stream), [FromLE(pending, src[0])]);
      }
      while i + 1 < |src|
        invariant 0 <= i <= |src| && !hasPending && stream == old(stream)
        invariant seen == stream + src[..i] && |seen| % 2 == 0
        invariant Emits(dst, out, Samples(stream), Samples(seen))
      {
        EmitPair(dst, out, Samples(stream), seen, src[i], src[i + 1]);
        Extended(stream, src, i, i + 2);
        assert src[i..i + 2] == [src[i], src[i + 1]];
        seen := seen + src[i..i + 2];
        out := out + [FromLE(src[i], src[i + 1])];
        i := i + 2;
      }
      Extended(stream, src, i, |src|);
      if i < |src| {
        pending := src[i];
        hasPending := true;
        SamplesOdd(seen, src[i]);
        assert src[i..] == [src[i]];
      } else {
        assert seen + src[i..] == seen;
      }
      stream := seen + src[i..];
    }

    method Reset()
      modifies this
      ensures Valid() && stream == []
    {
      hasPending := false;
      stream := [];
    }
  }
}
