/** The moving bar of main.c (computeVerticalBarXPosition): a horizontal
    offset in normalized device coordinates that advances by the clock's
    per-frame delta at a speed crossing the screen (width 2) in
    `animationDurationSec` seconds, and jumps back to 0 once it reaches 2.
    Floats are reals. */
module Animation {
  import Timing

  /** Width of the screen in normalized device coordinates (-1 to 1). */
  const ScreenWidth: real := 2.0

  /** Offset gained per second of elapsed time. */
  function Speed(animationDurationSec: int): (speed: real)
    requires animationDurationSec != 0
    ensures 0 < animationDurationSec ==> 0.0 < speed
  {
    ScreenWidth / animationDurationSec as real
  }

  /** At that speed one animation duration covers exactly the screen width. */
  lemma SpeedCoversScreen(animationDurationSec: int)
    requires animationDurationSec != 0
    ensures Speed(animationDurationSec) * animationDurationSec as real == ScreenWidth
  {
  }

  /** One call of computeVerticalBarXPosition on the stored offset. */
  function NextTranslation(translation: real, animationDurationSec: int, deltaSec: real): (next: real)
    requires animationDurationSec != 0
    ensures next < ScreenWidth
    ensures translation + Speed(animationDurationSec) * deltaSec >= ScreenWidth ==> next == 0.0
    ensures translation + Speed(animationDurationSec) * deltaSec < ScreenWidth
            ==> next == translation + Speed(animationDurationSec) * deltaSec
    ensures next == 0.0 || next == translation + Speed(animationDurationSec) * deltaSec
    ensures 0.0 <= translation && 0 < animationDurationSec && 0.0 <= deltaSec ==> 0.0 <= next
    ensures deltaSec == 0.0 && translation < ScreenWidth ==> next == translation
  {
    var advanced := translation + Speed(animationDurationSec) * deltaSec;
    if advanced >= ScreenWidth then 0.0 else advanced
  }

  /** The offset after one call per element of `deltas`, in order. */
  function Animate(translation: real, animationDurationSec: int, deltas: seq<real>): real
    requires animationDurationSec != 0
    decreases |deltas|
  {
    if deltas == [] then translation
    else NextTranslation(Animate(translation, animationDurationSec, deltas[..|deltas| - 1]),
                         animationDurationSec, deltas[|deltas| - 1])
  }

  /** The distance the bar is moved by the frames with the given deltas,
      before any wrapping, summed frame by frame as the source does. */
  function Travel(animationDurationSec: int, deltas: seq<real>): real
    requires animationDurationSec != 0
    decreases |deltas|
  {
    if deltas == [] then 0.0
    else Travel(animationDurationSec, deltas[..|deltas| - 1])
         + Speed(animationDurationSec) * deltas[|deltas| - 1]
  }

  /** Summed frame by frame or all at once, the distance is the speed times
      the total elapsed time: it does not depend on how time was split into frames. */
  lemma {:induction false} TravelIsSpeedTimesElapsed(animationDurationSec: int, deltas: seq<real>)
    requires animationDurationSec != 0
    ensures Travel(animationDurationSec, deltas) == Speed(animationDurationSec) * Timing.Sum(deltas)
    decreases |deltas|
  {
    if deltas != [] {
      var n := |deltas| - 1;
      assert deltas == deltas[..n] + [deltas[n]];
      Timing.SumSnoc(deltas[..n], deltas[n]);
      TravelIsSpeedTimesElapsed(animationDurationSec, deltas[..n]);
      Distribute(Speed(animationDurationSec), Timing.Sum(deltas[..n]), deltas[n], Timing.Sum(deltas));
    }
  }

  lemma Distribute(speed: real, before: real, last: real, total: real)
    requires total == before + last
    ensures speed * total == speed * before + speed * last
  {
  }

  /** Travel with non-negative deltas only grows. */
  lemma {:induction false} TravelGrows(animationDurationSec: int, deltas: seq<real>, k: nat)
    requires 0 < animationDurationSec
    requires forall i :: 0 <= i < |deltas| ==> 0.0 <= deltas[i]
    requires k <= |deltas|
    ensures Travel(animationDurationSec, deltas[..k]) <= Travel(animationDurationSec, deltas)
    decreases |deltas|
  {
    if k < |deltas| {
      var n := |deltas| - 1;
      assert deltas[..n][..k] == deltas[..k];
      TravelGrows(animationDurationSec, deltas[..n], k);
      assert 0.0 <= Speed(animationDurationSec) * deltas[n];
    } else {
      assert deltas[..k] == deltas;
    }
  }

  /** Until the accumulated offset reaches the edge it is the start plus the
      distance travelled. */
  lemma {:induction false} OffsetTracksTravel(start: real, animationDurationSec: int, deltas: seq<real>)
    requires 0 < animationDurationSec
    requires forall i :: 0 <= i < |deltas| ==> 0.0 <= deltas[i]
    requires start + Travel(animationDurationSec, deltas) < ScreenWidth
    ensures Animate(start, animationDurationSec, deltas) == start + Travel(animationDurationSec, deltas)
    decreases |deltas|
  {
    if deltas != [] {
      var n := |deltas| - 1;
      TravelGrows(animationDurationSec, deltas, n);
      OffsetTracksTravel(start, animationDurationSec, deltas[..n]);
    }
  }

  /** A cycle whose last frame has a positive delta: that frame is the one
      that reaches the edge, so it wraps the bar to 0. */
  lemma LastFrameWraps(animationDurationSec: int, deltas: seq<real>)
    requires 0 < animationDurationSec
    requires forall i :: 0 <= i < |deltas| ==> 0.0 <= deltas[i]
    requires |deltas| > 0 && 0.0 < deltas[|deltas| - 1]
    requires Timing.Sum(deltas) == animationDurationSec as real
    ensures Animate(0.0, animationDurationSec, deltas) == 0.0
  {
    var n := |deltas| - 1;
    var speed := Speed(animationDurationSec);
    TravelIsSpeedTimesElapsed(animationDurationSec, deltas);
    SpeedCoversScreen(animationDurationSec);
    assert Travel(animationDurationSec, deltas) == ScreenWidth;
    assert 0.0 < speed * deltas[n];
    assert Travel(animationDurationSec, deltas[..n]) < ScreenWidth;
    OffsetTracksTravel(0.0, animationDurationSec, deltas[..n]);
  }

  /** Frames whose deltas add up to exactly one animation duration take the
      bar from the left edge across the screen and back to 0. The frame that
      reaches the edge wraps it; frames after it with a zero delta leave it
      at 0. */
  lemma {:induction false} FullCycleReturnsToStart(animationDurationSec: int, deltas: seq<real>)
    requires 0 < animationDurationSec
    requires forall i :: 0 <= i < |deltas| ==> 0.0 <= deltas[i]
    requires Timing.Sum(deltas) == animationDurationSec as real
    ensures Animate(0.0, animationDurationSec, deltas) == 0.0
    decreases |deltas|
  {
    assert deltas != [];
    var n := |deltas| - 1;
    if deltas[n] == 0.0 {
      assert deltas == deltas[..n] + [deltas[n]];
      Timing.SumSnoc(deltas[..n], deltas[n]);
      FullCycleReturnsToStart(animationDurationSec, deltas[..n]);
    } else {
      LastFrameWraps(animationDurationSec, deltas);
    }
  }

  /** The return to the start holds only from the left edge: the wrap
      resets the offset to exactly 0 and drops the overshoot. From the middle
      of the screen, frames of 3 s and 2 s, one 5 s duration in all, end at
      0.8 rather than 1. */
  lemma FullCycleFromMidScreenMissesStart()
    ensures Timing.Sum([3.0, 2.0]) == 5 as real
    ensures Animate(1.0, 5, [3.0, 2.0]) == 0.8
  {
    assert [3.0, 2.0][..1] == [3.0];
    assert [3.0][..0] == [];
    assert Animate(1.0, 5, [3.0]) == 0.0;
  }

  /** The same in terms of the clock: from any starting time, updating the
      clock with non-decreasing samples whose last one is exactly one
      animation duration after the start brings the bar from the left edge
      back to it. */
  lemma {:induction false} OneDurationOfClockTimeReturnsToStart(animationDurationSec: int, start: real,
                                                               samples: seq<real>)
    requires 0 < animationDurationSec
    requires |samples| > 0 && start <= samples[0]
    requires forall i :: 0 < i < |samples| ==> samples[i - 1] <= samples[i]
    requires samples[|samples| - 1] == start + animationDurationSec as real
    ensures Animate(0.0, animationDurationSec, Timing.Deltas(start, samples)) == 0.0
  {
    var deltas := Timing.Deltas(start, samples);
    forall i | 0 <= i < |deltas|
      ensures 0.0 <= deltas[i]
    {
      Timing.DeltaAt(start, samples, i);
    }
    Timing.DeltasTelescope(start, samples);
    FullCycleReturnsToStart(animationDurationSec, deltas);
  }

  /** The static `translation` of computeVerticalBarXPosition. */
  class BarAnimator {
    var translation: real

    constructor ()
      ensures translation == 0.0
    {
      translation := 0.0;
    }

    /** Advance the bar by the clock's last delta and return the new offset. */
    method ComputeVerticalBarXPosition(clock: Timing.Clock, animationDurationSec: int) returns (x: real)
      requires animationDurationSec != 0
      modifies this
      ensures translation == NextTranslation(old(translation), animationDurationSec, clock.deltaSec)
      ensures x == translation
      ensures 0 < animationDurationSec && 0.0 <= clock.deltaSec && 0.0 <= old(translation)
              ==> 0.0 <= x < ScreenWidth
    {
      var speedPixelPerSec := ScreenWidth / animationDurationSec as real;
      translation := translation + speedPixelPerSec * clock.deltaSec;
      if translation >= ScreenWidth {
        translation := 0.0;
      }
      x := translation;
    }
  }
}
