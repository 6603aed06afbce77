/** Clock and playout together: which arrival times of audio give a call without gaps. */
module Supply {
  import opened Common
  import opened Playout
  import opened MediaClock
  import opened Writer
  import opened Wire
  import opened Rtp

  /** The playout events of rest, handled after pre. */
  ghost function After(pre: seq<Input>, rest: seq<Input>): seq<Event>
    decreases |rest|
  {
    if rest == [] then []
    else
      var n := |rest| - 1;
      After(pre, rest[..n]) + Events(MediaClock.Run(Ticks(pre + rest[..n])).last, rest[n])
  }

  lemma AfterSnoc(pre: seq<Input>, rest: seq<Input>)
    requires rest != []
    ensures After(pre, rest) == After(pre, rest[..|rest| - 1])
      + Events(MediaClock.Run(Ticks(pre + rest[..|rest| - 1])).last, rest[|rest| - 1])
  {
    hide Events, Ticks, MediaClock.Run;
  }

  lemma ExpandSnoc(ins: seq<Input>, x: Input)
    ensures Expand(ins + [x]) == Expand(ins) + Events(MediaClock.Run(Ticks(ins)).last, x)
  {
    assert (ins + [x])[..|ins|] == ins;
    hide Events, Ticks, MediaClock.Run;
  }

  lemma {:induction false} ExpandAfter(pre: seq<Input>, rest: seq<Input>)
    ensures Expand(pre + rest) == Expand(pre) + After(pre, rest)
    decreases |rest|
  {
    if rest == [] {
      hide Expand;
      assert pre + rest == pre;
    } else {
      hide *;
      var init, x := rest[..|rest| - 1], rest[|rest| - 1];
      ExpandAfter(pre, init);
      SplitLast(pre, rest);
      ExpandSnoc(pre + init, x);
      AfterSnoc(pre, rest);
      Reassociate(Expand(pre), After(pre, init), Events(MediaClock.Run(Ticks(pre + init)).last, x));
    }
  }

  lemma {:induction false} TicksConcat(a: seq<Input>, b: seq<Input>)
    ensures Ticks(a) <= Ticks(a + b)
    ensures b != [] && b[|b| - 1].Tick? ==> Ticks(a + b) != [] && Ticks(a + b)[|Ticks(a + b)| - 1] == b[|b| - 1].now
    decreases |b|
  {
    if b == [] {
      assert a + b == a;
    } else {
      TicksConcat(a, b[..|b| - 1]);
      assert (a + b)[..|a + b| - 1] == a + b[..|b| - 1];
    }
  }

  // ---- runs in two parts -----------------------------------------------------------------

  lemma RealConcat(l: Log, a: seq<Event>, b: seq<Event>)
    requires Inv(l)
    ensures AllReal(l, a + b) <==> AllReal(l, a) && AllReal(Playout.Run(l, a), b)
  {
    forall i | 0 <= i < |b|
      ensures RealAt(l, a + b, |a| + i) == RealAt(Playout.Run(l, a), b, i)
    {
      assert (a + b)[..|a| + i] == a + b[..i];
      RunConcat(l, a, b[..i]);
      hide Inv, Playout.Run;
    }
    forall i | 0 <= i < |a|
      ensures RealAt(l, a + b, i) == RealAt(l, a, i)
    {
      assert (a + b)[..|a|] == a;
      PrefixAt(l, a + b, |a|, i);
    }
    hide RealAt, Inv, Playout.Run;
    if AllReal(l, a) && AllReal(Playout.Run(l, a), b) {
      forall k | 0 <= k < |a + b|
        ensures RealAt(l, a + b, k)
      {
        if k >= |a| {
          assert RealAt(Playout.Run(l, a), b, k - |a|);
        }
      }
    }
  }

  /** Frames m and later of a log carry 160 real bytes each. */
  ghost predicate FullFrom(r: Log, m: nat) {
    forall k :: m <= k < |r.parts| ==> |r.parts[k]| == SAMPLES_PER_FRAME
  }

  lemma {:induction false} RealIsFull(l: Log, es: seq<Event>)
    requires Inv(l)
    ensures AllReal(l, es) <==> FullFrom(Playout.Run(l, es), |l.parts|)
    decreases |es|
  {
    if es == [] {
    } else {
      var n := |es| - 1;
      RealIsFull(l, es[..n]);
      OneMoreReal(l, es);
      PartsGrow(l, es[..n]);
      FullStep(Playout.Run(l, es[..n]), es[n], |l.parts|);
      hide AllReal, FullFrom, Inv, Step;
    }
  }

  lemma FullStep(l: Log, e: Event, m: nat)
    requires |l.state.queue| <= CAPACITY && m <= |l.parts|
    ensures FullFrom(Step(l, e), m) <==> FullFrom(l, m) && (e.Frame? ==> RealBytes(l.state) == SAMPLES_PER_FRAME)
  {
    hide Apply;
    if e.Frame? {
      var parts := Step(l, e).parts;
      assert parts[|l.parts|] == Part(l.state);
      assert forall k :: 0 <= k < |l.parts| ==> parts[k] == l.parts[k];
    } else {
      assert Step(l, e).parts == l.parts;
    }
  }

  /** A burst of frames is real exactly when the buffer holds all of it. */
  lemma BurstIsReal(l: Log, n: nat)
    requires Inv(l) && !l.state.buffering
    ensures AllReal(l, FrameEvents(n)) <==> |l.state.queue| >= SAMPLES_PER_FRAME * n
  {
    var es := FrameEvents(n);
    RealIffSupplied(l, es);
    forall i | 0 <= i < n
      ensures SuppliedAt(l, es, i) <==> |l.state.queue| >= SAMPLES_PER_FRAME * (i + 1)
    {
      assert es[..i] == FrameEvents(i);
      FramesInFrames(i);
      NothingTaken(l, i);
      hide Inv, Taken, FramesIn;
    }
    hide Inv, AllReal, SuppliedAt;
    if Supplied(l, es) && n > 0 {
      assert SuppliedAt(l, es, n - 1);
    }
  }

  lemma {:induction false} NothingTaken(l: Log, n: nat)
    requires Inv(l)
    ensures Taken(l, FrameEvents(n)) == []
  {
    if n == 0 {
    } else {
      NothingTaken(l, n - 1);
      assert FrameEvents(n)[..n - 1] == FrameEvents(n - 1);
      hide Inv;
    }
  }

  // ---- supply against the clock ----------------------------------------------------------

  /** Bytes in hand after pre, and accepted from rest before its input i. */
  ghost function Available(pre: seq<Input>, rest: seq<Input>, i: nat): nat
    requires Inv(EMPTY) && i <= |rest|
  {
    var l := Playout.Run(EMPTY, Expand(pre));
    |l.state.queue| + |Taken(l, After(pre, rest[..i]))|
  }

  /** If input i is a tick, what is available by then covers all frames up to and with it. */
  ghost predicate Covered(pre: seq<Input>, rest: seq<Input>, i: nat)
    requires Inv(EMPTY) && i < |rest|
  {
    rest[i].Tick? ==> Available(pre, rest, i) >= SAMPLES_PER_FRAME * FramesIn(After(pre, rest[..i + 1]))
  }

  lemma CoveredPrefix(pre: seq<Input>, rest: seq<Input>, n: nat, i: nat)
    requires Inv(EMPTY) && i < n <= |rest|
    ensures Covered(pre, rest[..n], i) == Covered(pre, rest, i)
  {
    assert rest[..n][..i] == rest[..i] && rest[..n][..i + 1] == rest[..i + 1];
    hide Inv, Playout.Run, Taken, FramesIn, After, Expand, EMPTY;
  }

  ghost predicate AllCovered(pre: seq<Input>, rest: seq<Input>)
    requires Inv(EMPTY)
  {
    forall i :: 0 <= i < |rest| ==> Covered(pre, rest, i)
  }

  lemma OneMoreCovered(pre: seq<Input>, rest: seq<Input>)
    requires Inv(EMPTY) && rest != []
    ensures AllCovered(pre, rest) <==> AllCovered(pre, rest[..|rest| - 1]) && Covered(pre, rest, |rest| - 1)
  {
    hide Covered, Inv, EMPTY;
    var n := |rest| - 1;
    forall i | 0 <= i < n
      ensures Covered(pre, rest[..n], i) == Covered(pre, rest, i)
    {
      CoveredPrefix(pre, rest, n, i);
    }
  }

  /** The log after pre, with audio playing. */
  ghost predicate Playing(pre: seq<Input>)
    requires Inv(EMPTY)
  {
    !Playout.Run(EMPTY, Expand(pre)).state.buffering
  }

  lemma {:induction false} RealIffCovered(pre: seq<Input>, rest: seq<Input>)
    requires Inv(EMPTY) && BargeIn !in rest
    ensures Interrupt !in After(pre, rest)
    ensures Playing(pre) ==>
      (AllReal(Playout.Run(EMPTY, Expand(pre)), After(pre, rest)) <==> AllCovered(pre, rest))
    decreases |rest|
  {
    if rest == [] {
      hide Playout.Run, Expand;
    } else {
      hide *;
      NoBargeIn(rest);
      RealIffCovered(pre, rest[..|rest| - 1]);
      OneMoreCovered(pre, rest);
      OneMoreInput(pre, rest);
    }
  }

  lemma NoBargeIn(rest: seq<Input>)
    requires rest != [] && BargeIn !in rest
    ensures BargeIn !in rest[..|rest| - 1] && !rest[|rest| - 1].BargeIn?
  {
    assert rest[|rest| - 1] in rest;
  }

  lemma OneMoreInput(pre: seq<Input>, rest: seq<Input>)
    requires Inv(EMPTY) && rest != [] && !rest[|rest| - 1].BargeIn?
    requires Interrupt !in After(pre, rest[..|rest| - 1])
    ensures Interrupt !in After(pre, rest)
    ensures var l := Playout.Run(EMPTY, Expand(pre));
      Playing(pre) ==>
        (AllReal(l, After(pre, rest)) <==>
           AllReal(l, After(pre, rest[..|rest| - 1])) && Covered(pre, rest, |rest| - 1))
  {
    var l := Playout.Run(EMPTY, Expand(pre));
    assert Playing(pre) <==> !l.state.buffering;
    hide *;
    var init, x := rest[..|rest| - 1], rest[|rest| - 1];
    AfterSnoc(pre, rest);
    NoInterrupt(MediaClock.Run(Ticks(pre + init)).last, x);
    if Playing(pre) {
      MoreInput(l, After(pre, init), MediaClock.Run(Ticks(pre + init)).last, x);
    }
    CoveredLast(pre, rest);
  }

  lemma CoveredLast(pre: seq<Input>, rest: seq<Input>)
    requires Inv(EMPTY) && rest != []
    ensures Covered(pre, rest, |rest| - 1) <==> (rest[|rest| - 1].Tick? ==>
      |Playout.Run(EMPTY, Expand(pre)).state.queue|
        + |Taken(Playout.Run(EMPTY, Expand(pre)), After(pre, rest[..|rest| - 1]))|
        >= SAMPLES_PER_FRAME * FramesIn(After(pre, rest)))
  {
    assert rest[..|rest|] == rest;
    hide Inv, EMPTY, Playout.Run, Taken, After, FramesIn, Expand;
  }

  /** Once playing and without a gap so far, one more input. */
  lemma MoreInput(l: Log, before: seq<Event>, last: Option<int>, input: Input)
    requires Inv(l) && !l.state.buffering && Interrupt !in before && !input.BargeIn?
    ensures Interrupt !in before + Events(last, input)
    ensures AllReal(l, before + Events(last, input)) <==>
      && AllReal(l, before)
      && (input.Tick? ==> |l.state.queue| + |Taken(l, before)|
                            >= SAMPLES_PER_FRAME * FramesIn(before + Events(last, input)))
  {
    RealConcat(l, before, Events(last, input));
    FramesInConcat(before, Events(last, input));
    EventsFrames(last, input);
    NoInterrupt(last, input);
    hide Playout.Run, AllReal, Inv, Taken, FramesIn, Events, Due;
    if AllReal(l, before) {
      Balance(l, before);
      OneInputReal(Playout.Run(l, before), last, input);
    }
  }

  lemma NoInterrupt(last: Option<int>, input: Input)
    requires !input.BargeIn?
    ensures Interrupt !in Events(last, input)
  {
  }

  /** One input leaves no gap, unless it is a tick that owes more than the buffer holds. */
  lemma OneInputReal(l: Log, last: Option<int>, input: Input)
    requires Inv(l) && !l.state.buffering && !input.BargeIn?
    ensures AllReal(l, Events(last, input)) <==>
      (input.Tick? ==> |l.state.queue| >= SAMPLES_PER_FRAME * Due(last, input.now))
  {
    hide Inv;
    if input.Tick? {
      BurstIsReal(l, Due(last, input.now));
      hide AllReal;
    }
  }

  /** The same demand in wall-clock terms: frames due by now, counted from the first tick of the call. */
  ghost predicate CoveredByClock(pre: seq<Input>, rest: seq<Input>, i: nat)
    requires Inv(EMPTY) && i < |rest| && Ticks(pre) != []
  {
    rest[i].Tick? ==>
      var start, since := Ticks(pre)[0], Ticks(pre)[|Ticks(pre)| - 1];
      Available(pre, rest, i) >= SAMPLES_PER_FRAME * (ClosedForm(start, rest[i].now) - ClosedForm(start, since))
  }

  lemma FramesAfter(pre: seq<Input>, rest: seq<Input>)
    ensures FramesIn(After(pre, rest)) ==
      MediaClock.Run(Ticks(pre + rest)).frames - MediaClock.Run(Ticks(pre)).frames
  {
    hide *;
    FrameCountIsClock(pre);
    FrameCountIsClock(pre + rest);
    ExpandAfter(pre, rest);
    FramesInConcat(Expand(pre), After(pre, rest));
  }

  lemma FramesByClock(pre: seq<Input>, rest: seq<Input>, i: nat)
    requires i < |rest| && rest[i].Tick? && Ticks(pre) != []
    requires NonDecreasing(Ticks(pre + rest)) && Steady(Ticks(pre + rest))
    ensures FramesIn(After(pre, rest[..i + 1])) ==
      ClosedForm(Ticks(pre)[0], rest[i].now) - ClosedForm(Ticks(pre)[0], Ticks(pre)[|Ticks(pre)| - 1])
  {
    hide *;
    var some := rest[..i + 1];
    assert pre + some + rest[i + 1..] == pre + rest;
    TicksConcat(pre, some);
    TicksConcat(pre + some, rest[i + 1..]);
    FramesAfter(pre, some);
    CountByClock(Ticks(pre), Ticks(pre + rest));
    CountByClock(Ticks(pre + some), Ticks(pre + rest));
  }

  lemma CountByClock(some: seq<int>, ticks: seq<int>)
    requires [] < some <= ticks && NonDecreasing(ticks) && Steady(ticks)
    ensures MediaClock.Run(some).frames == ClosedForm(some[0], some[|some| - 1])
  {
    ReanchorCondition(ticks);
    ReanchorsMonotone(ticks, |some|);
    assert ticks[..|some|] == some;
    hide MediaClock.Run, ClosedForm, Steady;
    ClosedFormHolds(some);
  }

  ghost predicate AllCoveredByClock(pre: seq<Input>, rest: seq<Input>)
    requires Inv(EMPTY) && Ticks(pre) != []
  {
    forall i :: 0 <= i < |rest| ==> CoveredByClock(pre, rest, i)
  }

  lemma CoverageByClock(pre: seq<Input>, rest: seq<Input>)
    requires Inv(EMPTY) && Ticks(pre) != [] && NonDecreasing(Ticks(pre + rest)) && Steady(Ticks(pre + rest))
    ensures AllCovered(pre, rest) <==> AllCoveredByClock(pre, rest)
  {
    hide EMPTY, Available, ClosedForm, Inv, After, Ticks, FramesIn, Steady, NonDecreasing;
    forall i | 0 <= i < |rest|
      ensures Covered(pre, rest, i) == CoveredByClock(pre, rest, i)
    {
      if rest[i].Tick? {
        FramesByClock(pre, rest, i);
      }
    }
    hide Covered, CoveredByClock;
  }

  /**
   Once playing, over any steady ticks and until the next barge-in: every frame that goes out is 160
   bytes of real audio if and only if, before every tick, the bytes in hand at the start and those
   accepted since cover the frames real time has called for since then.
   */
  lemma GaplessIffSupplied(pre: seq<Input>, rest: seq<Input>)
    requires Inv(EMPTY) && Playing(pre) && BargeIn !in rest
    requires Ticks(pre) != [] && NonDecreasing(Ticks(pre + rest)) && Steady(Ticks(pre + rest))
    ensures FullFrom(Playout.Run(EMPTY, Expand(pre + rest)), |Playout.Run(EMPTY, Expand(pre)).parts|)
       <==> AllCoveredByClock(pre, rest)
  {
    hide *;
    ExpandAfter(pre, rest);
    RunConcat(EMPTY, Expand(pre), After(pre, rest));
    RealIsFull(Playout.Run(EMPTY, Expand(pre)), After(pre, rest));
    RealIffCovered(pre, rest);
    CoverageByClock(pre, rest);
  }

  /** By each tick of rest, what has been accepted is 8000 bytes for each second since pre, less at most 20 ms. */
  ghost predicate OneFrameLate(pre: seq<Input>, rest: seq<Input>)
    requires Inv(EMPTY) && Ticks(pre) != []
  {
    forall i :: 0 <= i < |rest| && rest[i].Tick? ==>
      |Taken(Playout.Run(EMPTY, Expand(pre)), After(pre, rest[..i]))| * 1_000_000_000
        >= 8000 * (rest[i].now - Ticks(pre)[|Ticks(pre)| - 1] - 20_000_000)
  }

  /** With two frames in hand, audio arriving at 8000 bytes a second and one frame late plays without a gap. */
  lemma OneFrameLateIsGapless(pre: seq<Input>, rest: seq<Input>)
    requires Inv(EMPTY) && BargeIn !in rest
    requires Ticks(pre) != [] && NonDecreasing(Ticks(pre + rest)) && Steady(Ticks(pre + rest))
    ensures
      var l := Playout.Run(EMPTY, Expand(pre));
      Playing(pre) && |l.state.queue| >= 320 && OneFrameLate(pre, rest) ==>
        FullFrom(Playout.Run(EMPTY, Expand(pre + rest)), |l.parts|)
  {
    var l := Playout.Run(EMPTY, Expand(pre));
    if Playing(pre) && |l.state.queue| >= 320 && OneFrameLate(pre, rest) {
      GaplessIffSupplied(pre, rest);
      OneFrameLateIsCovered(pre, rest);
    }
  }

  lemma OneFrameLateIsCovered(pre: seq<Input>, rest: seq<Input>)
    requires Inv(EMPTY) && Ticks(pre) != []
    ensures |Playout.Run(EMPTY, Expand(pre)).state.queue| >= 320 && OneFrameLate(pre, rest) ==>
      AllCoveredByClock(pre, rest)
  {
    var l := Playout.Run(EMPTY, Expand(pre));
    if |l.state.queue| >= 320 && OneFrameLate(pre, rest) {
      hide Inv, Playout.Run, After, Expand, Ticks, ClosedForm, Taken;
      forall i | 0 <= i < |rest|
        ensures CoveredByClock(pre, rest, i)
      {
        if rest[i].Tick? {
          var start, since := Ticks(pre)[0], Ticks(pre)[|Ticks(pre)| - 1];
          TwoFramesCover(start, since, rest[i].now, |Taken(l, After(pre, rest[..i]))|);
        }
      }
    }
  }

  lemma TwoFramesCover(start: int, since: int, now: int, taken: nat)
    requires taken * 1_000_000_000 >= 8000 * (now - since - 20_000_000)
    ensures 320 + taken >= SAMPLES_PER_FRAME * (ClosedForm(start, now) - ClosedForm(start, since))
  {
  }
}
