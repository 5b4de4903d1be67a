/**
 The I/P-frame classifier: a countdown counter (`frameIndex`) that decides,
 frame by frame, whether the kernel compresses the frame independently
 (an I-frame) or predicts it from the previous output.
 */
module Cadence {
  import opened Int32

  /** The verdict for one frame together with the counter left for the next. */
  datatype Classification = Classification(isIFrame: bool, counter: int32)

  /** The per-frame knobs the classifier reads. */
  datatype FrameInput = FrameInput(numBFrames: int32, useIFrames: bool, isPlaying: bool)

  /** The value the counter is reset to on an I-frame: the number of
      predicted frames, never below zero. */
  function Reset(numBFrames: int32): (r: int32)
    ensures r >= 0
    ensures r >= numBFrames
    ensures r == numBFrames || r == 0
  {
    if numBFrames > 0 then numBFrames else 0
  }

  /** One frame of the classifier. */
  function Step(counter: int32, numBFrames: int32, useIFrames: bool, isPlaying: bool): (r: Classification)
    ensures r.isIFrame <==> counter == 0 || !isPlaying
    ensures r.isIFrame ==> r.counter == Reset(numBFrames)
    ensures !r.isIFrame && !useIFrames ==> r.counter == counter
    ensures !r.isIFrame && useIFrames && counter > 0 ==> r.counter as int == counter as int - 1
    ensures counter >= 0 ==> 0 <= r.counter as int <= if r.isIFrame then Reset(numBFrames) as int else counter as int
  {
    if counter == 0 || !isPlaying then
      Classification(true, Reset(numBFrames))
    else if useIFrames then
      Classification(false, Decrement(counter))
    else
      Classification(false, counter)
  }

  /** The classifier's output over several frames, starting from `counter`;
      the knobs may change from frame to frame. */
  datatype Run = Run(counter: int32, iFrames: seq<bool>)

  function RunFrames(counter: int32, frames: seq<FrameInput>): (r: Run)
    ensures |r.iFrames| == |frames|
    ensures counter >= 0 ==> r.counter >= 0
    ensures forall k :: 0 <= k < |frames| && !frames[k].isPlaying ==> r.iFrames[k]
    ensures |frames| > 0 && (counter == 0 || !frames[0].isPlaying) ==> r.iFrames[0]
    decreases |frames|
  {
    if |frames| == 0 then
      Run(counter, [])
    else
      var f := frames[0];
      var step := Step(counter, f.numBFrames, f.useIFrames, f.isPlaying);
      var rest := RunFrames(step.counter, frames[1..]);
      Run(rest.counter, [step.isIFrame] + rest.iFrames)
  }

  /** The counter before frame `k` after `Setup`, with the application playing
      and the knobs held fixed. */
  function CounterAt(k: nat, numBFrames: int32, useIFrames: bool): (r: int32)
    ensures r >= 0
  {
    if k == 0 then 0
    else Step(CounterAt(k - 1, numBFrames, useIFrames), numBFrames, useIFrames, true).counter
  }

  /** The counter before frame `k + 1` is one step on from frame `k`'s. */
  lemma CounterAtNext(k: nat, numBFrames: int32, useIFrames: bool)
    ensures CounterAt(k + 1, numBFrames, useIFrames) == Step(CounterAt(k, numBFrames, useIFrames), numBFrames, useIFrames, true).counter
  {
  }

  /** Whether frame `k` after `Setup` is an I-frame, under the same conditions. */
  predicate IsIFrameAt(k: nat, numBFrames: int32, useIFrames: bool) {
    Step(CounterAt(k, numBFrames, useIFrames), numBFrames, useIFrames, true).isIFrame
  }

  /** One frame of `RunFrames`: the head's classification, then the rest. */
  lemma RunFramesHead(counter: int32, frames: seq<FrameInput>)
    requires |frames| > 0
    ensures var step := Step(counter, frames[0].numBFrames, frames[0].useIFrames, frames[0].isPlaying);
      var rest := RunFrames(step.counter, frames[1..]);
      RunFrames(counter, frames) == Run(rest.counter, [step.isIFrame] + rest.iFrames)
  {
  }

  /** All frames playing, with the knobs held fixed. */
  ghost predicate PlayingWith(frames: seq<FrameInput>, numBFrames: int32, useIFrames: bool) {
    forall i :: 0 <= i < |frames| ==> frames[i] == FrameInput(numBFrames, useIFrames, true)
  }

  /** Over a playing, fixed-knob sequence started at frame `j`, `RunFrames`
      ends with the counter `CounterAt` gives. */
  lemma {:induction false} RunFramesCounter(j: nat, frames: seq<FrameInput>, numBFrames: int32, useIFrames: bool)
    requires PlayingWith(frames, numBFrames, useIFrames)
    ensures RunFrames(CounterAt(j, numBFrames, useIFrames), frames).counter == CounterAt(j + |frames|, numBFrames, useIFrames)
    decreases |frames|
  {
    if |frames| > 0 {
      var c := CounterAt(j, numBFrames, useIFrames);
      assert frames[0] == FrameInput(numBFrames, useIFrames, true);
      assert Step(c, numBFrames, useIFrames, true).counter == CounterAt(j + 1, numBFrames, useIFrames);
      RunFramesHead(c, frames);
      RunFramesCounter(j + 1, frames[1..], numBFrames, useIFrames);
      assert j + 1 + (|frames| - 1) == j + |frames|;
    }
  }

  /** ... and classifies its frame `k` as `IsIFrameAt(j + k)` says. */
  lemma {:induction false} RunFramesMatchesCounterAt(j: nat, frames: seq<FrameInput>, numBFrames: int32, useIFrames: bool)
    requires PlayingWith(frames, numBFrames, useIFrames)
    ensures var r := RunFrames(CounterAt(j, numBFrames, useIFrames), frames);
      forall k :: 0 <= k < |frames| ==> r.iFrames[k] == IsIFrameAt(j + k, numBFrames, useIFrames)
    decreases |frames|
  {
    if |frames| > 0 {
      var c := CounterAt(j, numBFrames, useIFrames);
      var step := Step(c, numBFrames, useIFrames, true);
      assert frames[0] == FrameInput(numBFrames, useIFrames, true);
      assert step.counter == CounterAt(j + 1, numBFrames, useIFrames);
      RunFramesHead(c, frames);
      RunFramesMatchesCounterAt(j + 1, frames[1..], numBFrames, useIFrames);
      ShiftFlags([step.isIFrame], RunFrames(step.counter, frames[1..]).iFrames, j, numBFrames, useIFrames);
    }
  }

  /** Prepending frame `j`'s flag to the flags of frames `j + 1` onwards gives
      the flags of frames `j` onwards. */
  lemma ShiftFlags(head: seq<bool>, rest: seq<bool>, j: nat, numBFrames: int32, useIFrames: bool)
    requires |head| == 1 && head[0] == IsIFrameAt(j, numBFrames, useIFrames)
    requires forall k :: 0 <= k < |rest| ==> rest[k] == IsIFrameAt(j + 1 + k, numBFrames, useIFrames)
    ensures forall k :: 0 <= k < |head + rest| ==> (head + rest)[k] == IsIFrameAt(j + k, numBFrames, useIFrames)
  {
    forall k | 0 <= k < |head + rest|
      ensures (head + rest)[k] == IsIFrameAt(j + k, numBFrames, useIFrames)
    {
      if k > 0 {
        assert (head + rest)[k] == rest[k - 1];
        assert j + k == j + 1 + (k - 1);
      }
    }
  }

  /** Where a period of length `m + 1` stands after `k` frames: the counter
      value the classifier holds before frame `k`. */
  function Phase(k: nat, m: nat): nat {
    var r := k % (m + 1);
    if r == 0 then 0 else m + 1 - r
  }

  /** The remainder of a successor. */
  lemma ModSuccessor(k: nat, d: nat)
    requires d >= 1
    ensures (k + 1) % d == if k % d == d - 1 then 0 else k % d + 1
  {
    var q, r := k / d, k % d;
    assert k == q * d + r;
    if r == d - 1 {
      assert k + 1 == (q + 1) * d;
      ModOfMultiple(q + 1, d);
    } else {
      assert k + 1 == q * d + (r + 1);
      ModOfSum(q, d, r + 1);
    }
  }

  lemma ModOfMultiple(q: nat, d: nat)
    requires d >= 1
    ensures (q * d) % d == 0
  {
    ModOfSum(q, d, 0);
  }

  lemma ModOfSum(q: nat, d: nat, r: nat)
    requires r < d
    ensures (q * d + r) % d == r
  {
    var n := q * d + r;
    var q', r' := n / d, n % d;
    assert n == q' * d + r';
    var t := q - q';
    assert t * d == r' - r by {
      assert q * d - q' * d == (q - q') * d;
    }
    if t >= 1 {
      AtLeastOnce(t, d);
    } else if t <= -1 {
      AtLeastOnce(-t, d);
    }
  }

  lemma AtLeastOnce(t: int, d: nat)
    requires t >= 1
    ensures t * d >= d
  {
    assert t * d == (t - 1) * d + d;
  }

  /** With I-frames on, the counter before frame `k` is the distance to the
      end of the current period. */
  lemma {:induction false} CounterAtIsPhase(k: nat, numBFrames: int32)
    ensures CounterAt(k, numBFrames, true) as int == Phase(k, Reset(numBFrames) as nat)
  {
    if k > 0 {
      CounterAtIsPhase(k - 1, numBFrames);
      CounterAtNext(k - 1, numBFrames, true);
      Countdown(CounterAt(k - 1, numBFrames, true), numBFrames);
      PhaseStep(k - 1, Reset(numBFrames) as nat);
    }
  }

  /** With I-frames on, a playing frame counts a positive counter down and
      resets a zero one. */
  lemma Countdown(counter: int32, numBFrames: int32)
    requires counter >= 0
    ensures Step(counter, numBFrames, true, true).counter as int == if counter == 0 then Reset(numBFrames) as int else counter as int - 1
  {
  }

  /** The phase counts down to zero and then restarts at `m`. */
  lemma PhaseStep(k: nat, m: nat)
    ensures Phase(k + 1, m) == if Phase(k, m) == 0 then m else Phase(k, m) - 1
  {
    ModSuccessor(k, m + 1);
  }

  /** With I-frames on and the application playing, frame `k` after `Setup` is
      an I-frame exactly when `k` is a multiple of the period `max(c, 0) + 1`. */
  lemma Periodic(k: nat, numBFrames: int32)
    ensures IsIFrameAt(k, numBFrames, true) <==> k % (Reset(numBFrames) as int + 1) == 0
  {
    CounterAtIsPhase(k, numBFrames);
  }

  /** Every aligned window of `max(c, 0) + 1` consecutive frames holds exactly
      one I-frame, at the window's start. */
  lemma OneIFramePerPeriod(q: nat, numBFrames: int32)
    ensures var start := q * (Reset(numBFrames) as int + 1);
      forall k :: start <= k <= start + Reset(numBFrames) as int ==> (IsIFrameAt(k, numBFrames, true) <==> k == start)
  {
    var m := Reset(numBFrames) as nat;
    var start := q * (m + 1);
    forall k | start <= k <= start + m
      ensures IsIFrameAt(k, numBFrames, true) <==> k == start
    {
      Periodic(k, numBFrames);
      AlignedWindow(q, m, k);
    }
  }

  /** Within the window `[q(m+1), q(m+1) + m]` only the window's start is a
      multiple of `m + 1`. */
  lemma AlignedWindow(q: nat, m: nat, k: int)
    requires q * (m + 1) <= k <= q * (m + 1) + m
    ensures k % (m + 1) == 0 <==> k == q * (m + 1)
  {
    ModOfSum(q, m + 1, k - q * (m + 1));
  }

  /** From any frame `k`, the next I-frame is `Phase(k)` frames away, never
      more than `max(c, 0)`: every window of `max(c, 0) + 1` consecutive
      frames, aligned or not, holds an I-frame. */
  lemma NextIFrame(k: nat, numBFrames: int32)
    ensures Phase(k, Reset(numBFrames) as nat) <= Reset(numBFrames) as int
    ensures IsIFrameAt(k + Phase(k, Reset(numBFrames) as nat), numBFrames, true)
  {
    var m := Reset(numBFrames) as nat;
    PhaseReachesMultiple(k, m);
    Periodic(k + Phase(k, m), numBFrames);
  }

  /** `Phase(k)` steps from `k` land on the next multiple of `m + 1`. */
  lemma PhaseReachesMultiple(k: nat, m: nat)
    ensures Phase(k, m) <= m
    ensures (k + Phase(k, m)) % (m + 1) == 0
  {
    var q, r := k / (m + 1), k % (m + 1);
    if r != 0 {
      assert k == q * (m + 1) + r;
      assert k + Phase(k, m) == (q + 1) * (m + 1) by {
        assert q * (m + 1) + (m + 1) == (q + 1) * (m + 1);
      }
      ModOfMultiple(q + 1, m + 1);
    }
  }

  /** With no predicted frames every frame is an I-frame, whether or not
      I-frames are on: the counter is reset to zero on every frame. */
  lemma {:induction false} AllIFramesWithoutPrediction(k: nat, numBFrames: int32, useIFrames: bool)
    requires numBFrames <= 0
    ensures CounterAt(k, numBFrames, useIFrames) == 0
    ensures IsIFrameAt(k, numBFrames, useIFrames)
  {
    if k > 0 {
      AllIFramesWithoutPrediction(k - 1, numBFrames, useIFrames);
    }
  }

  /** Two predicted frames give the cadence I, P, P, I, P, P. */
  lemma TwoPredictedFrames()
    ensures [IsIFrameAt(0, 2, true), IsIFrameAt(1, 2, true), IsIFrameAt(2, 2, true),
             IsIFrameAt(3, 2, true), IsIFrameAt(4, 2, true), IsIFrameAt(5, 2, true)]
         == [true, false, false, true, false, false]
  {
    forall k | 0 <= k < 6
      ensures IsIFrameAt(k, 2, true) <==> k % 3 == 0
    {
      Periodic(k, 2);
    }
  }

  /** With I-frames off and a positive count, only the first frame after
      `Setup` is an I-frame: the counter never moves off its reset value. */
  lemma {:induction false} PredictedForever(k: nat, numBFrames: int32)
    requires numBFrames > 0 && k >= 1
    ensures CounterAt(k, numBFrames, false) == numBFrames
    ensures !IsIFrameAt(k, numBFrames, false)
  {
    if k > 1 {
      PredictedForever(k - 1, numBFrames);
    }
  }

  lemma FirstFrameIsIFrame(numBFrames: int32, useIFrames: bool)
    ensures IsIFrameAt(0, numBFrames, useIFrames)
  {
  }
}
