/** The application clock of main.c: the latest wall-clock sample, the one
    before it, and their difference, all in seconds. The wall-clock read
    itself is not part of the model: each update receives its sample. */
module Timing {

  class Clock {
    var currentTimeSec: real
    var lastTimeSec: real
    var deltaSec: real

    /** The delta always describes the two samples the clock holds. */
    ghost predicate Valid()
      reads this
    {
      deltaSec == currentTimeSec - lastTimeSec
    }

    /** initializeClock: all three fields start at zero. */
    constructor ()
      ensures Valid()
      ensures currentTimeSec == 0.0 && lastTimeSec == 0.0 && deltaSec == 0.0
    {
      currentTimeSec := 0.0;
      lastTimeSec := 0.0;
      deltaSec := 0.0;
    }

    /** updateClock: shift the current sample into the last one and take
        `sampleSec` as the new current time. */
    method Update(sampleSec: real)
      modifies this
      ensures lastTimeSec == old(currentTimeSec)
      ensures currentTimeSec == sampleSec
      ensures deltaSec == sampleSec - old(currentTimeSec)
      ensures Valid()
      ensures old(currentTimeSec) <= sampleSec ==> 0.0 <= deltaSec
    {
      lastTimeSec := currentTimeSec;
      currentTimeSec := sampleSec;
      deltaSec := currentTimeSec - lastTimeSec;
    }
  }

  /** The deltas a clock whose current time is `start` reports when it is
      updated with `samples`, one update per sample. */
  function Deltas(start: real, samples: seq<real>): (ds: seq<real>)
    ensures |ds| == |samples|
    ensures |samples| > 0 ==> ds[0] == samples[0] - start
    decreases samples
  {
    if samples == [] then []
    else [samples[0] - start] + Deltas(samples[0], samples[1..])
  }

  function Sum(xs: seq<real>): real
  {
    if xs == [] then 0.0 else xs[0] + Sum(xs[1..])
  }

  /** Summing a sequence one element at a time from its end. */
  lemma {:induction false} SumSnoc(xs: seq<real>, x: real)
    ensures Sum(xs + [x]) == Sum(xs) + x
    decreases xs
  {
    if xs != [] {
      assert (xs + [x])[1..] == xs[1..] + [x];
      SumSnoc(xs[1..], x);
    }
  }

  /** The deltas telescope: summed over any run of updates they give the
      time elapsed between the starting time and the last sample. Starting
      from a freshly initialized clock (time 0) they sum to the last sample. */
  lemma {:induction false} DeltasTelescope(start: real, samples: seq<real>)
    requires |samples| > 0
    ensures Sum(Deltas(start, samples)) == samples[|samples| - 1] - start
    decreases samples
  {
    if |samples| > 1 {
      DeltasTelescope(samples[0], samples[1..]);
    }
  }

  /** Each reported delta is the difference between a sample and the one
      before it (the starting time for the first). */
  lemma {:induction false} DeltaAt(start: real, samples: seq<real>, k: nat)
    requires k < |samples|
    ensures |Deltas(start, samples)| == |samples|
    ensures Deltas(start, samples)[k] == samples[k] - (if k == 0 then start else samples[k - 1])
    decreases k
  {
    if k > 0 {
      DeltaAt(samples[0], samples[1..], k - 1);
    }
  }
  /** Appending a sample appends its difference from the sample before it
      (the starting time when there is none). */
  lemma {:induction false} DeltasSnoc(start: real, samples: seq<real>, sample: real)
    ensures Deltas(start, samples + [sample])
         == Deltas(start, samples) + [sample - (if samples == [] then start else samples[|samples| - 1])]
    decreases samples
  {
    if samples != [] {
      assert (samples + [sample])[1..] == samples[1..] + [sample];
      DeltasSnoc(samples[0], samples[1..], sample);
    }
  }

  /** The clock across the main loop: one updateClock per frame (from
      beginFrame) with that frame's wall-clock sample, collecting the delta
      each frame sees. The deltas are those of `Deltas`, so they sum to the
      time elapsed since the starting sample. */
  method UpdateEach(clock: Clock, samples: seq<real>) returns (reported: seq<real>)
    modifies clock
    ensures reported == Deltas(old(clock.currentTimeSec), samples)
    ensures |samples| > 0 ==> clock.Valid() && clock.currentTimeSec == samples[|samples| - 1]
    ensures |samples| > 0 ==> clock.deltaSec == reported[|reported| - 1]
    ensures |samples| > 0 ==> clock.lastTimeSec
                              == if |samples| == 1 then old(clock.currentTimeSec) else samples[|samples| - 2]
    ensures samples == [] ==> clock.currentTimeSec == old(clock.currentTimeSec)
                              && clock.lastTimeSec == old(clock.lastTimeSec)
                              && clock.deltaSec == old(clock.deltaSec)
    ensures |samples| > 0 ==> Sum(reported) == clock.currentTimeSec - old(clock.currentTimeSec)
  {
    ghost var start := clock.currentTimeSec;
    reported := [];
    for k := 0 to |samples|
      invariant reported == Deltas(start, samples[..k])
      invariant clock.currentTimeSec == if k == 0 then start else samples[k - 1]
      invariant k > 0 ==> clock.Valid()
      invariant k > 0 ==> clock.deltaSec == reported[k - 1]
      invariant k > 0 ==> clock.lastTimeSec == if k == 1 then start else samples[k - 2]
      invariant k == 0 ==> clock.lastTimeSec == old(clock.lastTimeSec) && clock.deltaSec == old(clock.deltaSec)
    {
      clock.Update(samples[k]);
      reported := reported + [clock.deltaSec];
      DeltasSnoc(start, samples[..k], samples[k]);
      assert samples[..k + 1] == samples[..k] + [samples[k]];
    }
    assert samples[..|samples|] == samples;
    if |samples| > 0 {
      DeltasTelescope(start, samples);
    }
  }
}
