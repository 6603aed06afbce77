/** Machine types shared by every component, and the concatenation of a list of chunks. */
module Common {

  type byte = b: int | 0 <= b < 0x100

  type int16 = s: int | -0x8000 <= s <= 0x7FFF

  datatype Option<+T> = None | Some(value: T)

  /** The stream that a list of chunks adds up to. */
  function Flatten<T>(chunks: seq<seq<T>>): seq<T> {
    if chunks == [] then [] else chunks[0] + Flatten(chunks[1..])
  }

  lemma FirstOrRest<T>(s: seq<T>)
    requires s != []
    ensures forall a :: a in s <==> a == s[0] || a in s[1..]
  {
    assert s == [s[0]] + s[1..];
  }

  lemma SplitLast<T>(a: seq<T>, b: seq<T>)
    requires b != []
    ensures b == b[..|b| - 1] + [b[|b| - 1]]
    ensures a + b == a + b[..|b| - 1] + [b[|b| - 1]]
  {
  }

  lemma {:induction false} FlattenSnoc<T>(chunks: seq<seq<T>>, last: seq<T>)
    ensures Flatten(chunks + [last]) == Flatten(chunks) + last
  {
    if chunks == [] {
      assert (chunks + [last])[1..] == [];
    } else {
      assert (chunks + [last])[1..] == chunks[1..] + [last];
      FlattenSnoc(chunks[1..], last);
    }
  }

  /** Flattening the first i chunks, one chunk at a time. */
  lemma FlattenTake<T>(chunks: seq<seq<T>>, i: nat)
    requires i < |chunks|
    ensures Flatten(chunks[..i + 1]) == Flatten(chunks[..i]) + chunks[i]
  {
    assert chunks[..i + 1] == chunks[..i] + [chunks[i]];
    FlattenSnoc(chunks[..i], chunks[i]);
  }

  /** out is dst extended by exactly what the stream after has beyond the stream before. */
  ghost predicate Emits<T>(dst: seq<T>, out: seq<T>, before: seq<T>, after: seq<T>) {
    before <= after && out == dst + after[|before|..]
  }

  lemma EmitNothing<T>(dst: seq<T>, before: seq<T>)
    ensures Emits(dst, dst, before, before)
  {
    assert before[|before|..] == [];
  }

  lemma EmitMore<T>(dst: seq<T>, out: seq<T>, before: seq<T>, after: seq<T>, more: seq<T>)
    requires Emits(dst, out, before, after)
    ensures Emits(dst, out + more, before, after + more)
  {
    assert (after + more)[|before|..] == after[|before|..] + more;
  }

  lemma Extended<T>(a: seq<T>, b: seq<T>, i: nat, j: nat)
    requires i <= j <= |b|
    ensures a + b[..i] + b[i..j] == a + b[..j]
    ensures a + b[..0] == a && a + b[..|b|] == a + b
  {
  }

  lemma EmitsIsSuffix<T>(out: seq<T>, before: seq<T>, after: seq<T>)
    ensures Emits([], out, before, after) <==> after == before + out
  {
    if before <= after {
      assert after == before + after[|before|..];
    }
    assert (before + out)[|before|..] == out;
  }

  /** Call i of a stage, fed chunk i, emitted exactly what spec gains by that chunk. */
  ghost predicate IsRun<A, B>(spec: seq<A> -> seq<B>, chunks: seq<seq<A>>, outs: seq<seq<B>>) {
    && |chunks| == |outs|
    && forall i :: 0 <= i < |chunks| ==>
         Emits([], outs[i], spec(Flatten(chunks[..i])), spec(Flatten(chunks[..i + 1])))
  }

  /** The chunks a stage emits if it keeps to a specification whose output only ever grows. */
  lemma {:induction false} RunExists<A, B>(spec: seq<A> -> seq<B>, chunks: seq<seq<A>>) returns (outs: seq<seq<B>>)
    requires forall a, b :: spec(a) <= spec(a + b)
    ensures IsRun(spec, chunks, outs)
  {
    if chunks == [] {
      outs := [];
    } else {
      var n := |chunks| - 1;
      outs := RunExists(spec, chunks[..n]);
      FlattenTake(chunks, n);
      var before, after := Flatten(chunks[..n]), Flatten(chunks[..n + 1]);
      assert spec(before) <= spec(before + chunks[n]);
      outs := outs + [spec(after)[|spec(before)|..]];
      forall i | 0 <= i < |chunks|
        ensures Emits([], outs[i], spec(Flatten(chunks[..i])), spec(Flatten(chunks[..i + 1])))
      {
        if i < n {
          assert chunks[..n][..i] == chunks[..i] && chunks[..n][..i + 1] == chunks[..i + 1];
        }
      }
    }
  }

  /** A stage that only ever emits what its specification gains is blind to chunking. */
  lemma {:induction false} RunOutput<A, B>(spec: seq<A> -> seq<B>, chunks: seq<seq<A>>, outs: seq<seq<B>>)
    requires IsRun(spec, chunks, outs) && spec([]) == []
    ensures Flatten(outs) == spec(Flatten(chunks))
    decreases |chunks|
  {
    if chunks == [] {
    } else {
      var n := |chunks| - 1;
      var chunks', outs' := chunks[..n], outs[..n];
      forall i | 0 <= i < n
        ensures Emits([], outs'[i], spec(Flatten(chunks'[..i])), spec(Flatten(chunks'[..i + 1])))
      {
        assert chunks'[..i] == chunks[..i] && chunks'[..i + 1] == chunks[..i + 1];
      }
      RunOutput(spec, chunks', outs');
      assert chunks[..n + 1] == chunks && outs == outs' + [outs[n]];
      FlattenSnoc(outs', outs[n]);
      EmitsIsSuffix(outs[n], spec(Flatten(chunks[..n])), spec(Flatten(chunks)));
    }
  }

  /** Two chunkings of one stream produce the same output stream. */
  lemma ChunkInvariance<A, B>(spec: seq<A> -> seq<B>, chunks: seq<seq<A>>, outs: seq<seq<B>>,
                              chunks': seq<seq<A>>, outs': seq<seq<B>>)
    requires spec([]) == [] && IsRun(spec, chunks, outs) && IsRun(spec, chunks', outs')
    requires Flatten(chunks) == Flatten(chunks')
    ensures Flatten(outs) == Flatten(outs')
  {
    RunOutput(spec, chunks, outs);
    RunOutput(spec, chunks', outs');
  }
}
