/**
 The outbound media clock of internal/call/call.go (emitDue), in integer nanoseconds. Ticks carry
 the instant at which the timer was handled; the first one anchors the clock.
 */
module MediaClock {
  import opened Common
  import opened Division

  const FRAME_NS := 20_000_000
  const MAX_CATCH_UP := 5

  /** Frames the clock owes at now, before the catch-up bound. */
  function Owed(last: int, now: int): nat {
    if now < last then 0 else (now - last + FRAME_NS / 4) / FRAME_NS
  }

  /** Past the catch-up bound the clock starts over from now. */
  predicate Reanchored(last: Option<int>, now: int) {
    last.Some? && Owed(last.value, now) > MAX_CATCH_UP
  }

  /** The deadline after a tick. */
  function Advance(last: Option<int>, now: int): int {
    match last
    case None => now
    case Some(end) =>
      if Reanchored(last, now) then now else end + Owed(end, now) * FRAME_NS
  }

  /** The frames a tick emits. */
  function Due(last: Option<int>, now: int): nat {
    match last
    case None => 1
    case Some(end) => if Reanchored(last, now) then MAX_CATCH_UP else Owed(end, now)
  }

  /** Nanoseconds of media a re-anchoring tick gives up. */
  function Forgiven(last: Option<int>, now: int): int {
    if Reanchored(last, now) then now - last.value - MAX_CATCH_UP * FRAME_NS else 0
  }

  datatype Totals = Totals(last: Option<int>, frames: nat, forgiven: int, reanchors: nat)

  /** Everything the clock has done over a run of ticks. */
  function Run(ticks: seq<int>): Totals {
    if ticks == [] then Totals(None, 0, 0, 0)
    else AddTick(Run(ticks[..|ticks| - 1]), ticks[|ticks| - 1])
  }

  ghost predicate NonDecreasing(ticks: seq<int>) {
    forall i :: 0 < i < |ticks| ==> ticks[i - 1] <= ticks[i]
  }

  ghost predicate GapsAtMost(ticks: seq<int>, gap: int) {
    forall i :: 0 < i < |ticks| ==> ticks[i] - ticks[i - 1] <= gap
  }

  /** The deadline stays within a half-open interval one frame long around the last tick. */
  ghost predicate Anchored(last: int, now: int) {
    now - FRAME_NS * 3 / 4 < last <= now + FRAME_NS / 4
  }

  lemma AdvanceAnchored(last: int, before: int, now: int)
    requires before <= now && Anchored(last, before)
    ensures Anchored(Advance(Some(last), now), now)
  {
  }

  lemma {:induction false} RunAnchored(ticks: seq<int>)
    requires ticks != [] && NonDecreasing(ticks)
    ensures Run(ticks).last.Some? && Anchored(Run(ticks).last.value, ticks[|ticks| - 1])
  {
    var n := |ticks| - 1;
    if n > 0 {
      RunAnchored(ticks[..n]);
      hide Anchored;
      assert ticks[..n][n - 1] == ticks[n - 1] <= ticks[n];
      AdvanceAnchored(Run(ticks[..n]).last.value, ticks[n - 1], ticks[n]);
    } else {
      assert ticks[..n] == [];
    }
  }

  lemma TickAccounting(last: Option<int>, now: int)
    ensures last.Some? ==> Due(last, now) * FRAME_NS + Forgiven(last, now) == Advance(last, now) - last.value
    ensures last.None? ==> Due(last, now) == 1 && Forgiven(last, now) == 0 && Advance(last, now) == now
    ensures if Reanchored(last, now) then Forgiven(last, now) >= FRAME_NS * 3 / 4 else Forgiven(last, now) == 0
    ensures last.None? ==> !Reanchored(last, now)
  {
  }

  ghost predicate Balanced(r: Totals, start: int) {
    && r.last.Some?
    && r.frames * FRAME_NS + r.forgiven == r.last.value - start + FRAME_NS
    && r.forgiven >= r.reanchors * (FRAME_NS * 3 / 4)
    && (r.forgiven == 0 <==> r.reanchors == 0)
  }

  /** What one tick adds to the totals. */
  function AddTick(before: Totals, now: int): Totals {
    Totals(Some(Advance(before.last, now)),
           before.frames + Due(before.last, now),
           before.forgiven + Forgiven(before.last, now),
           before.reanchors + if Reanchored(before.last, now) then 1 else 0)
  }

  lemma AddTickBalanced(before: Totals, start: int, now: int)
    requires Balanced(before, start)
    ensures Balanced(AddTick(before, now), start)
  {
    TickAccounting(before.last, now);
    hide Advance, Due, Forgiven, Reanchored;
  }

  /** Emitted plus forgiven media is exactly the distance the deadline has moved. */
  lemma {:induction false} Accounting(ticks: seq<int>)
    requires ticks != []
    ensures Balanced(Run(ticks), ticks[0])
  {
    var n := |ticks| - 1;
    if n > 0 {
      Accounting(ticks[..n]);
      hide Balanced;
      AddTickBalanced(Run(ticks[..n]), ticks[0], ticks[n]);
    } else {
      assert ticks[..n] == [];
    }
  }

  /** No tick emits more than five frames, and the clock starts over exactly from 115 ms behind. */
  lemma DueBound(last: Option<int>, now: int)
    ensures Due(last, now) <= 5
    ensures Reanchored(last, now) <==> last.Some? && now - last.value >= 115_000_000
    ensures Reanchored(last, now) ==> Forgiven(last, now) >= FRAME_NS * 3 / 4
  {
  }

  /** The stream never runs ahead of real time by more than 5 ms beyond its first frame. */
  lemma NeverAhead(ticks: seq<int>)
    requires ticks != [] && NonDecreasing(ticks)
    ensures (Run(ticks).frames - 1) * 20_000_000 <= ticks[|ticks| - 1] - ticks[0] + 5_000_000
  {
    Accounting(ticks);
    RunAnchored(ticks);
    hide Run;
  }

  /** Frames a clock that never re-anchors has emitted by now. */
  function ClosedForm(start: int, now: int): int {
    (now - start + FRAME_NS * 5 / 4) / FRAME_NS
  }

  /** Without a re-anchor the count depends only on the first and the last tick. */
  lemma ClosedFormHolds(ticks: seq<int>)
    requires ticks != [] && NonDecreasing(ticks) && Run(ticks).reanchors == 0
    ensures Run(ticks).frames == ClosedForm(ticks[0], ticks[|ticks| - 1])
  {
    Accounting(ticks);
    RunAnchored(ticks);
    hide Run;
  }

  /** A re-anchoring tick leaves the count behind the closed form. */
  lemma ClosedFormFailsOnReanchor(ticks: seq<int>)
    requires |ticks| > 1 && NonDecreasing(ticks)
    requires Reanchored(Run(ticks[..|ticks| - 1]).last, ticks[|ticks| - 1])
    ensures Run(ticks).frames < ClosedForm(ticks[0], ticks[|ticks| - 1])
  {
    var r, now := Run(ticks), ticks[|ticks| - 1];
    Accounting(ticks);
    assert r.reanchors >= 1 && r.last == Some(now);
    assert r.forgiven >= FRAME_NS * 3 / 4;
    BehindClosedForm(r.frames, ticks[0], now);
  }

  lemma BehindClosedForm(frames: int, start: int, now: int)
    requires frames * FRAME_NS <= now - start + FRAME_NS - FRAME_NS * 3 / 4
    ensures frames < ClosedForm(start, now)
  {
  }

  /** In the closed form, tick i brings at most five new frames. */
  ghost predicate SteadyAt(ticks: seq<int>, i: nat)
    requires 0 < i < |ticks|
  {
    ClosedForm(ticks[0], ticks[i]) - ClosedForm(ticks[0], ticks[i - 1]) <= MAX_CATCH_UP
  }

  ghost predicate Steady(ticks: seq<int>) {
    forall i :: 0 < i < |ticks| ==> SteadyAt(ticks, i)
  }

  lemma SteadySnoc(ticks: seq<int>)
    requires |ticks| > 1
    ensures Steady(ticks) <==> Steady(ticks[..|ticks| - 1]) && SteadyAt(ticks, |ticks| - 1)
  {
    var n := |ticks| - 1;
    forall i | 0 < i < n
      ensures SteadyAt(ticks[..n], i) == SteadyAt(ticks, i)
    {
      hide ClosedForm;
    }
    hide SteadyAt;
  }

  /** While the count is the closed form, a tick owes what the closed form gains. */
  lemma OwedIsGain(start: int, last: int, before: int, now: int)
    requires before <= now && last - start + FRAME_NS == ClosedForm(start, before) * FRAME_NS
    ensures Owed(last, now) == ClosedForm(start, now) - ClosedForm(start, before)
  {
    if now < last {
      assert now - start + FRAME_NS * 5 / 4 < ClosedForm(start, before) * FRAME_NS + FRAME_NS / 4;
    }
  }

  /** A run re-anchors exactly when some tick comes more than five frames after the one before. */
  lemma {:induction false} ReanchorCondition(ticks: seq<int>)
    requires ticks != [] && NonDecreasing(ticks)
    ensures Run(ticks).reanchors == 0 <==> Steady(ticks)
    decreases |ticks|
  {
    var n := |ticks| - 1;
    if n == 0 {
      assert ticks[..n] == [];
    } else {
      ReanchorCondition(ticks[..n]);
      SteadySnoc(ticks);
      OneTickMore(ticks);
      hide *;
    }
  }

  lemma OneTickMore(ticks: seq<int>)
    requires |ticks| > 1 && NonDecreasing(ticks)
    ensures var before := Run(ticks[..|ticks| - 1]);
      && Run(ticks).reanchors >= before.reanchors
      && (before.reanchors == 0 ==> (Run(ticks).reanchors == 0 <==> SteadyAt(ticks, |ticks| - 1)))
  {
    var n, before := |ticks| - 1, ticks[..|ticks| - 1];
    assert Run(ticks) == AddTick(Run(before), ticks[n]);
    if Run(before).reanchors == 0 {
      ClosedFormHolds(before);
      Accounting(before);
      hide Owed, ClosedForm, Run;
      OwedIsGain(ticks[0], Run(before).last.value, ticks[n - 1], ticks[n]);
    }
  }

  /**
   The clock follows real time at every tick of a run exactly when the ticks are steady: none
   comes more than five frames, counted from the first tick, after the one before it.
   */
  lemma {:induction false} FollowsRealTime(ticks: seq<int>)
    requires ticks != [] && NonDecreasing(ticks)
    ensures (forall i :: 0 < i <= |ticks| ==> Run(ticks[..i]).frames == ClosedForm(ticks[0], ticks[i - 1]))
       <==> Steady(ticks)
  {
    ReanchorCondition(ticks);
    hide Steady;
    if Run(ticks).reanchors == 0 {
      forall i | 0 < i <= |ticks|
        ensures Run(ticks[..i]).frames == ClosedForm(ticks[0], ticks[i - 1])
      {
        ReanchorsMonotone(ticks, i);
        ClosedFormHolds(ticks[..i]);
      }
    } else {
      var i := FirstReanchor(ticks);
      assert ticks[..i + 1][..i] == ticks[..i];
      ClosedFormFailsOnReanchor(ticks[..i + 1]);
      assert Run(ticks[..i + 1]).frames != ClosedForm(ticks[0], ticks[i + 1 - 1]);
    }
  }

  lemma {:induction false} ReanchorsMonotone(ticks: seq<int>, i: nat)
    requires i <= |ticks|
    ensures Run(ticks[..i]).reanchors <= Run(ticks).reanchors
    decreases |ticks|
  {
    var n := |ticks| - 1;
    if i <= n {
      ReanchorsMonotone(ticks[..n], i);
      assert ticks[..n][..i] == ticks[..i];
    } else {
      assert ticks[..i] == ticks;
    }
  }

  lemma {:induction false} FirstReanchor(ticks: seq<int>) returns (i: nat)
    requires Run(ticks).reanchors > 0
    ensures 0 < i < |ticks| && Reanchored(Run(ticks[..i]).last, ticks[i])
    decreases |ticks|
  {
    var n := |ticks| - 1;
    if Reanchored(Run(ticks[..n]).last, ticks[n]) {
      i := n;
    } else {
      i := FirstReanchor(ticks[..n]);
      assert ticks[..n][..i] == ticks[..i];
    }
  }

  /** Ticks at most five frames apart never re-anchor, however late each one is. */
  lemma {:induction false} SmallGapsNeverReanchor(ticks: seq<int>)
    requires NonDecreasing(ticks) && GapsAtMost(ticks, 5 * FRAME_NS)
    ensures Run(ticks).reanchors == 0
  {
    var n := |ticks| - 1;
    if n > 0 {
      SmallGapsNeverReanchor(ticks[..n]);
      RunAnchored(ticks[..n]);
      assert ticks[..n][n - 1] == ticks[n - 1];
      assert ticks[n] - ticks[n - 1] <= 5 * FRAME_NS;
    } else if n == 0 {
      assert ticks[..n] == [];
    }
  }

  /** Five frames is the largest gap with that guarantee. */
  lemma LargerGapCanReanchor() returns (ticks: seq<int>)
    ensures NonDecreasing(ticks) && GapsAtMost(ticks, 5 * FRAME_NS + 1) && Run(ticks).reanchors > 0
  {
    hide AddTick;
    var a, b := FRAME_NS * 3 / 4 - 1, FRAME_NS * 3 / 4 + 5 * FRAME_NS;
    ticks := [0, a, b];
    RunSnoc([], 0);
    RunSnoc([0], a);
    RunSnoc([0, a], b);
    assert [] + [0] == [0] && [0] + [a] == [0, a] && [0, a] + [b] == ticks;
    hide Run;
    TightGap(a, b);
  }

  lemma TightGap(a: int, b: int)
    requires a == FRAME_NS * 3 / 4 - 1 && b == FRAME_NS * 3 / 4 + 5 * FRAME_NS
    ensures AddTick(AddTick(AddTick(Totals(None, 0, 0, 0), 0), a), b).reanchors > 0
  {
    OwedIs(0, a, 0);
    OwedIs(0, b, 6);
    hide Owed;
  }

  lemma OwedIs(last: int, now: int, n: nat)
    requires last <= now && n * FRAME_NS <= now - last + FRAME_NS / 4 < (n + 1) * FRAME_NS
    ensures Owed(last, now) == n
  {
    DivUnique(now - last + FRAME_NS / 4, FRAME_NS, n);
  }

  lemma RunSnoc(ticks: seq<int>, now: int)
    ensures Run(ticks + [now]) == AddTick(Run(ticks), now)
    ensures Run([]) == Totals(None, 0, 0, 0)
  {
    assert (ticks + [now])[..|ticks|] == ticks;
  }

  /** A tick that comes too late is a new start: from there on the clock runs as if it were the first. */
  lemma {:induction false} ReanchorIsRestart(ticks: seq<int>, now: int, rest: seq<int>)
    requires Reanchored(Run(ticks).last, now)
    ensures Run(ticks + [now] + rest).last == Run([now] + rest).last
    ensures Run(ticks + [now] + rest).frames == Run(ticks).frames + 4 + Run([now] + rest).frames
    decreases |rest|
  {
    if rest == [] {
      RunSnoc(ticks, now);
      RunSnoc([], now);
      assert ticks + [now] + rest == ticks + [now] && [now] + rest == [] + [now];
    } else {
      hide *;
      var init, last := rest[..|rest| - 1], rest[|rest| - 1];
      ReanchorIsRestart(ticks, now, init);
      SplitLast(ticks + [now], rest);
      SplitLast([now], rest);
      RunSnoc(ticks + [now] + init, last);
      RunSnoc([now] + init, last);
      AddTickSame(Run(ticks + [now] + init), Run([now] + init), last);
    }
  }

  lemma AddTickSame(a: Totals, b: Totals, now: int)
    requires a.last == b.last
    ensures AddTick(a, now).last == AddTick(b, now).last
    ensures AddTick(a, now).frames - a.frames == AddTick(b, now).frames - b.frames
  {
  }

  /** The closed form for every tick sequence with gaps of at most five frames. */
  lemma LateTicksDoNotMatter(ticks: seq<int>, ticks': seq<int>)
    requires ticks != [] && NonDecreasing(ticks) && GapsAtMost(ticks, 5 * FRAME_NS)
    requires ticks' != [] && NonDecreasing(ticks') && GapsAtMost(ticks', 5 * FRAME_NS)
    requires ticks[0] == ticks'[0] && ticks[|ticks| - 1] == ticks'[|ticks'| - 1]
    ensures Run(ticks).frames == Run(ticks').frames == ClosedForm(ticks[0], ticks[|ticks| - 1])
  {
    SmallGapsNeverReanchor(ticks);
    SmallGapsNeverReanchor(ticks');
    ClosedFormHolds(ticks);
    ClosedFormHolds(ticks');
  }
}
