/** The frame-rate controller of main.c: three integer bounds (floor, min,
    max) adjusted by user key presses, and a simulated frame rate that
    oscillates between the effective minimum and the maximum with sin(t).
    The value of sin(t) is a parameter in [-1, 1]; doubles are reals. */
module FrameRate {

  const FloorRate: int := 10
  const DefaultMinRate: int := 30
  const DefaultMaxRate: int := 60
  const NanosecondsPerSecond: int := 1000000000

  /** The `max` helper on doubles. */
  function Max(a: real, b: real): (r: real)
    ensures a <= r && b <= r
    ensures r == a || r == b
  {
    if a > b then a else b
  }

  /** The `min` helper on doubles. */
  function Min(a: real, b: real): (r: real)
    ensures r <= a && r <= b
    ensures r == a || r == b
  {
    if a < b then a else b
  }

  /** C's conversion from double to an integer type: truncation toward zero. */
  function Truncate(x: real): (n: int)
    ensures 0.0 <= x ==> 0 <= n && n as real <= x < n as real + 1.0
    ensures x < 0.0 ==> n <= 0 && n as real - 1.0 < x <= n as real
  {
    if 0.0 <= x then x.Floor else -((-x).Floor)
  }

  /** A double holding an integer converts back to that integer. */
  lemma TruncateIntegral(k: int)
    ensures Truncate(k as real) == k
  {
  }

  /** The three integer bounds of the controller. */
  datatype Bounds = Bounds(floor: int, min: int, max: int) {
    /** The ordering every adjustment with a non-negative step keeps. */
    predicate Valid() {
      0 < floor <= min <= max
    }
  }

  /** initializeFrameRateController: floor 10, min 30, max the larger of 60
      and the display's refresh rate. */
  function InitialBounds(refreshRate: int): (b: Bounds)
    ensures b.floor == FloorRate && b.min == DefaultMinRate
    ensures b.max >= DefaultMaxRate && b.max >= refreshRate
    ensures b.max == DefaultMaxRate || b.max == refreshRate
    ensures b.Valid()
  {
    TruncateIntegral(DefaultMaxRate);
    TruncateIntegral(refreshRate);
    Bounds(FloorRate, DefaultMinRate, Truncate(Max(DefaultMaxRate as real, refreshRate as real)))
  }

  /** increaseMinFrameRate: raise min by n, but never above max. */
  function RaiseMin(b: Bounds, n: int): (r: Bounds)
    ensures r.floor == b.floor && r.max == b.max
    ensures r.min <= b.max && r.min <= b.min + n
    ensures r.min == b.min + n || r.min == b.max
    ensures b.Valid() && 0 <= n ==> r.Valid() && b.min <= r.min
  {
    TruncateIntegral(b.min + n);
    TruncateIntegral(b.max);
    b.(min := Truncate(Min((b.min + n) as real, b.max as real)))
  }

  /** increaseMaxFrameRate: raise max by exactly n, with no clamping. */
  function RaiseMax(b: Bounds, n: int): (r: Bounds)
    ensures r.floor == b.floor && r.min == b.min
    ensures r.max - b.max == n
    ensures b.Valid() && 0 <= n ==> r.Valid()
  {
    b.(max := b.max + n)
  }

  /** decreaseMinFrameRate: lower min by n, but never below floor. */
  function LowerMin(b: Bounds, n: int): (r: Bounds)
    ensures r.floor == b.floor && r.max == b.max
    ensures r.min >= b.floor && r.min >= b.min - n
    ensures r.min == b.min - n || r.min == b.floor
    ensures b.Valid() && 0 <= n ==> r.Valid() && r.min <= b.min
  {
    TruncateIntegral(b.min - n);
    TruncateIntegral(b.floor);
    b.(min := Truncate(Max((b.min - n) as real, b.floor as real)))
  }

  /** decreaseMaxFrameRate: lower max by n, but never below min. */
  function LowerMax(b: Bounds, n: int): (r: Bounds)
    ensures r.floor == b.floor && r.min == b.min
    ensures r.max >= b.min && r.max >= b.max - n
    ensures r.max == b.max - n || r.max == b.min
    ensures b.Valid() ==> r.Valid()
  {
    TruncateIntegral(b.max - n);
    TruncateIntegral(b.min);
    b.(max := Truncate(Max((b.max - n) as real, b.min as real)))
  }

  /** The lower end of the oscillation: the larger of floor and min. */
  function EffectiveMin(b: Bounds): (lo: real)
    ensures lo >= b.floor as real && lo >= b.min as real
    ensures lo == b.floor as real || lo == b.min as real
  {
    Max(b.floor as real, b.min as real)
  }

  lemma ScaledSine(amplitude: real, sinT: real)
    requires -1.0 <= sinT <= 1.0
    ensures 0.0 <= amplitude ==> -amplitude <= amplitude * sinT <= amplitude
  {
  }

  /** The simulated frame rate of computeNextFrameDelayMsec, with `sinT`
      standing for sin(currentTimeSec): the mean of the effective minimum and
      the maximum plus half their distance times sin(t). */
  function SimulatedFrameRate(b: Bounds, sinT: real): (rate: real)
    requires -1.0 <= sinT <= 1.0
    ensures EffectiveMin(b) <= b.max as real ==> EffectiveMin(b) <= rate <= b.max as real
    ensures sinT == 0.0 ==> rate == (EffectiveMin(b) + b.max as real) / 2.0
    ensures sinT == 1.0 ==> rate == b.max as real
    ensures sinT == -1.0 ==> rate == EffectiveMin(b)
  {
    var lo := EffectiveMin(b);
    var range := b.max as real - lo;
    var mean := (lo + b.max as real) / 2.0;
    var amplitude := range / 2.0;
    ScaledSine(amplitude, sinT);
    assert mean - amplitude == lo && mean + amplitude == b.max as real;
    mean + amplitude * sinT
  }

  /** The delay until the next frame: the reciprocal of the simulated rate.
      Under the bounds invariant the rate is at least floor, so the delay is
      positive and at most 1/floor. */
  function FrameDelay(b: Bounds, sinT: real): (delay: real)
    requires b.Valid()
    requires -1.0 <= sinT <= 1.0
    ensures delay * SimulatedFrameRate(b, sinT) == 1.0
    ensures 0.0 < delay <= 1.0 / b.floor as real
  {
    var rate := SimulatedFrameRate(b, sinT);
    assert b.floor as real <= rate;
    ReciprocalBound(b.floor as real, rate);
    1.0 / rate
  }

  lemma ReciprocalBound(lo: real, x: real)
    requires 0.0 < lo <= x
    ensures 0.0 < 1.0 / x <= 1.0 / lo
  {
  }

  /** endFrame: the nanosecond field of the sleep request, the frame delay
      times 10^9 truncated to an integer. */
  function SleepNanoseconds(frameDelaySec: real): (nsec: int)
    ensures 0.0 <= frameDelaySec ==> 0 <= nsec
    ensures 0.0 <= frameDelaySec ==> nsec as real <= frameDelaySec * NanosecondsPerSecond as real
    ensures 0.0 <= frameDelaySec <= 0.1 ==> nsec <= NanosecondsPerSecond / 10
  {
    Truncate(frameDelaySec * NanosecondsPerSecond as real)
  }

  /** The load-bearing consequence of the invariant: whatever the time, the
      sleep request endFrame builds has a nanosecond field in [0, 10^9), the
      range a timespec accepts, so no whole second is ever lost to it. */
  lemma FrameDelayFitsTimespec(b: Bounds, sinT: real)
    requires b.Valid() && b.floor == FloorRate
    requires -1.0 <= sinT <= 1.0
    ensures 0 <= SleepNanoseconds(FrameDelay(b, sinT))
    ensures SleepNanoseconds(FrameDelay(b, sinT)) < NanosecondsPerSecond
  {
  }

  /** The user's rate-adjustment key presses; each carries its step. */
  datatype Adjustment =
    | IncreaseMin(step: int)
    | IncreaseMax(step: int)
    | DecreaseMin(step: int)
    | DecreaseMax(step: int)

  function Adjust(b: Bounds, a: Adjustment): Bounds
  {
    match a
    case IncreaseMin(n) => RaiseMin(b, n)
    case IncreaseMax(n) => RaiseMax(b, n)
    case DecreaseMin(n) => LowerMin(b, n)
    case DecreaseMax(n) => LowerMax(b, n)
  }

  function AdjustAll(b: Bounds, adjustments: seq<Adjustment>): Bounds
    decreases |adjustments|
  {
    if adjustments == [] then b else AdjustAll(Adjust(b, adjustments[0]), adjustments[1..])
  }

  /** Any run of key presses with non-negative steps keeps floor <= min <= max
      and leaves the floor where it was, so the simulated rate stays positive. */
  lemma {:induction false} AdjustmentsKeepBounds(b: Bounds, adjustments: seq<Adjustment>)
    requires b.Valid()
    requires forall i :: 0 <= i < |adjustments| ==> 0 <= adjustments[i].step
    ensures AdjustAll(b, adjustments).Valid()
    ensures AdjustAll(b, adjustments).floor == b.floor
    decreases |adjustments|
  {
    if adjustments != [] {
      var next := Adjust(b, adjustments[0]);
      assert next.Valid() && next.floor == b.floor;
      AdjustmentsKeepBounds(next, adjustments[1..]);
    }
  }

  /** Starting from 60 Hz: floor 10, min 30, max 60; at t = 0 the rate is
      the mean 45 and the delay 1/45 s. */
  lemma DefaultsAtTimeZero()
    ensures InitialBounds(60) == Bounds(10, 30, 60)
    ensures SimulatedFrameRate(InitialBounds(60), 0.0) == 45.0
    ensures FrameDelay(InitialBounds(60), 0.0) == 1.0 / 45.0
  {
  }

  /** Five presses of "increase max by 10" from the defaults give max 110 and
      leave min at 30. */
  lemma RaiseMaxFiveTimes()
    ensures AdjustAll(InitialBounds(60), seq(5, _ => IncreaseMax(10))) == Bounds(10, 30, 110)
  {
    var presses := seq(5, _ => IncreaseMax(10));
    var b := InitialBounds(60);
    assert b == Bounds(10, 30, 60);
    calc {
      AdjustAll(b, presses);
      AdjustAll(Bounds(10, 30, 70), presses[1..]);
      AdjustAll(Bounds(10, 30, 80), presses[2..]);
      AdjustAll(Bounds(10, 30, 90), presses[3..]);
      AdjustAll(Bounds(10, 30, 100), presses[4..]);
      AdjustAll(Bounds(10, 30, 110), presses[5..]);
    }
  }

  /** Lowering min by 100 from the defaults stops at the floor. */
  lemma LowerMinStopsAtFloor()
    ensures LowerMin(InitialBounds(60), 100) == Bounds(10, 10, 60)
  {
  }

  /** increaseMaxFrameRate does not clamp: a negative step can push max below
      min, so the ordering is kept only for the non-negative steps callers use. */
  lemma RaiseMaxNegativeBreaksOrder()
    ensures !RaiseMax(InitialBounds(60), -100).Valid()
  {
  }

  /** The controller as main.c keeps it: the three bounds and the last
      simulated rate and delay. */
  class FrameRateController {
    var frameRateFloor: int
    var frameRateMin: int
    var frameRateMax: int
    var currentSimulatedFrameRate: real
    var nextFrameDelaySec: real

    function CurrentBounds(): Bounds
      reads this
    {
      Bounds(frameRateFloor, frameRateMin, frameRateMax)
    }

    ghost predicate Valid()
      reads this
    {
      CurrentBounds().Valid() && frameRateFloor == FloorRate
    }

    /** initializeFrameRateController. The source does not set the rate and
        delay fields here; the model leaves them unconstrained. */
    constructor (refreshRate: int)
      ensures CurrentBounds() == InitialBounds(refreshRate)
      ensures Valid()
    {
      frameRateFloor := FloorRate;
      frameRateMin := DefaultMinRate;
      TruncateIntegral(DefaultMaxRate);
      TruncateIntegral(refreshRate);
      frameRateMax := Truncate(Max(DefaultMaxRate as real, refreshRate as real));
    }

    method IncreaseMinFrameRate(byNrOfFrames: int)
      modifies this`frameRateMin
      ensures CurrentBounds() == RaiseMin(old(CurrentBounds()), byNrOfFrames)
      ensures old(Valid()) && 0 <= byNrOfFrames ==> Valid()
    {
      frameRateMin := Truncate(Min((frameRateMin + byNrOfFrames) as real, frameRateMax as real));
    }

    method IncreaseMaxFrameRate(byNrOfFrames: int)
      modifies this`frameRateMax
      ensures CurrentBounds() == RaiseMax(old(CurrentBounds()), byNrOfFrames)
      ensures old(Valid()) && 0 <= byNrOfFrames ==> Valid()
    {
      frameRateMax := frameRateMax + byNrOfFrames;
    }

    method DecreaseMinFrameRate(byNrOfFrames: int)
      modifies this`frameRateMin
      ensures CurrentBounds() == LowerMin(old(CurrentBounds()), byNrOfFrames)
      ensures old(Valid()) && 0 <= byNrOfFrames ==> Valid()
    {
      frameRateMin := Truncate(Max((frameRateMin - byNrOfFrames) as real, frameRateFloor as real));
    }

    method DecreaseMaxFrameRate(byNrOfFrames: int)
      modifies this`frameRateMax
      ensures CurrentBounds() == LowerMax(old(CurrentBounds()), byNrOfFrames)
      ensures old(Valid()) ==> Valid()
    {
      frameRateMax := Truncate(Max((frameRateMax - byNrOfFrames) as real, frameRateMin as real));
    }

    /** computeNextFrameDelayMsec, with `sinOfTime` standing for
        sin(currentTimeSec). The bounds are left as they are. */
    method ComputeNextFrameDelay(sinOfTime: real)
      requires Valid()
      requires -1.0 <= sinOfTime <= 1.0
      modifies this`currentSimulatedFrameRate, this`nextFrameDelaySec
      ensures currentSimulatedFrameRate == SimulatedFrameRate(CurrentBounds(), sinOfTime)
      ensures nextFrameDelaySec == FrameDelay(CurrentBounds(), sinOfTime)
      ensures EffectiveMin(CurrentBounds()) <= currentSimulatedFrameRate <= frameRateMax as real
      ensures 0.0 < nextFrameDelaySec <= 0.1
    {
      var frameRateMinimum := Max(frameRateFloor as real, frameRateMin as real);
      var frameRateRange := frameRateMax as real - frameRateMinimum;
      var frameRateRangeMean := (frameRateMinimum + frameRateMax as real) / 2.0;
      var frameRateAmplitude := frameRateRange / 2.0;
      currentSimulatedFrameRate := frameRateRangeMean + frameRateAmplitude * sinOfTime;
      assert currentSimulatedFrameRate == SimulatedFrameRate(CurrentBounds(), sinOfTime);
      nextFrameDelaySec := 1.0 / currentSimulatedFrameRate;
      assert nextFrameDelaySec == FrameDelay(CurrentBounds(), sinOfTime);
    }
  }
}
