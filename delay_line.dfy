/** Reference definitions of the two delay-line effects, stated without a ring
    buffer: the value a channel's delay line yields at step `k` is the
    feedback produced exactly `c` steps earlier, or silence during the first
    `c` steps. The in-place loops of module Effects are proved to compute
    these. */
module DelayLine {
  import opened Pcm
  import opened Stereo

  /** The sample the echo's delay line of capacity `c` yields at step `k` of
      channel `x`: zero while the line still holds its initial silence,
      afterwards the clamped feedback written `c` steps earlier. Steps up to
      `|x| + c` are defined, so that every slot of the line has a value even
      after the last input sample. */
  function Delayed(x: seq<int16>, c: nat, k: nat): int16
    requires 1 <= c && k < |x| + c
    decreases k
  {
    if k < c then 0 else Feedback(x[k - c], Delayed(x, c, k - c))
  }

  /** The output of the echo on one channel: each input plus what the delay
      line yields at that step, saturated. */
  function EchoChannel(x: seq<int16>, c: nat): (y: seq<int16>)
    requires 1 <= c || |x| == 0
    ensures |y| == |x|
  {
    seq(|x|, k requires 0 <= k < |x| => EchoSample(x, c, k))
  }

  function EchoSample(x: seq<int16>, c: nat, k: nat): int16
    requires 1 <= c && k < |x|
  {
    Clamp(x[k] + Delayed(x, c, k))
  }

  /** The stereo echo: the left channel is echoed through its own delay line
      (one step per frame), the right channel is passed through. */
  function EchoStereo(x: seq<int16>, c: nat): (y: seq<int16>)
    requires 1 <= c || |x| / 2 == 0
  {
    Interleave(EchoChannel(Left(x), c), Right(x))
  }

  /** The value the stereo delay effect holds for frame `f` of its left
      channel `l`: `input + delayed * 0.5f` converted to an integer WITHOUT
      saturation. It is a mathematical integer here; the conversion to
      `int16_t` is only defined while it stays in range (see StoresFit). */
  function Stored(l: seq<int16>, c: nat, f: nat): int
    requires 1 <= c && f < |l| + c
    decreases f
  {
    if f < c then 0 else TruncDiv2(2 * l[f - c] + Stored(l, c, f - c))
  }

  /** Every value the stereo delay stores into its left delay line fits in
      an `int16_t`, so no conversion has undefined behaviour. */
  ghost predicate StoresFit(l: seq<int16>, c: nat)
    requires 1 <= c
  {
    forall f :: 0 <= f < |l| + c ==> Min16 <= Stored(l, c, f) <= Max16
  }

  /** The left channel of the stereo delay: each input plus the unsaturated
      stored value, saturated on output. */
  function DelayChannel(l: seq<int16>, c: nat): (y: seq<int16>)
    requires 1 <= c || |l| == 0
    ensures |y| == |l|
  {
    seq(|l|, f requires 0 <= f < |l| => DelaySample(l, c, f))
  }

  function DelaySample(l: seq<int16>, c: nat, f: nat): int16
    requires 1 <= c && f < |l|
  {
    Clamp(l[f] + Stored(l, c, f))
  }

  /** The stereo delay: the left channel through DelayChannel, the right
      channel passed through. */
  function DelayStereo(x: seq<int16>, c: nat): (y: seq<int16>)
    requires 1 <= c || |x| / 2 == 0
  {
    Interleave(DelayChannel(Left(x), c), Right(x))
  }

  // ---------------------------------------------------------------------
  // Runs of a delay line, step by step

  /** `vals` is a run of the echo's delay line of capacity `c` over channel
      `x`, and `y` the output it produces: the line yields silence for the
      first `c` steps, afterwards the feedback stored when the sample `c`
      steps earlier was processed; each output is the input plus what the
      line yields, saturated. */
  ghost predicate EchoRun(x: seq<int16>, c: nat, y: seq<int16>, vals: seq<int16>)
  {
    |y| == |x| && |vals| == |x| + c &&
    (forall k :: 0 <= k < c ==> vals[k] == 0) &&
    (forall k :: 0 <= k < |x| ==> EchoStep(x, c, y, vals, k))
  }

  /** Step `k` of an echo run: output, then the feedback stored for step `k + c`. */
  ghost predicate EchoStep(x: seq<int16>, c: nat, y: seq<int16>, vals: seq<int16>, k: nat)
    requires |y| == |x| && |vals| == |x| + c && k < |x|
  {
    vals[k + c] == Feedback(x[k], vals[k]) && y[k] == Clamp(x[k] as int + vals[k])
  }

  /** Every channel has a run (built from the reference definition) ... */
  lemma EchoRunExists(x: seq<int16>, c: nat) returns (y: seq<int16>, vals: seq<int16>)
    requires 1 <= c
    ensures EchoRun(x, c, y, vals)
  {
    y := EchoChannel(x, c);
    vals := seq(|x| + c, k requires 0 <= k < |x| + c => Delayed(x, c, k));
  }

  /** ... and every run's output is the echo: the step-by-step
      description determines the output. */
  lemma EchoRunIsEcho(x: seq<int16>, c: nat, y: seq<int16>, vals: seq<int16>)
    requires 1 <= c && EchoRun(x, c, y, vals)
    ensures y == EchoChannel(x, c)
  {
    var z := EchoChannel(x, c);
    forall k | 0 <= k < |x|
      ensures y[k] == z[k]
    {
      assert EchoStep(x, c, y, vals, k);
      EchoRunDelayed(x, c, y, vals, k);
    }
  }

  lemma {:induction false} EchoRunDelayed(x: seq<int16>, c: nat, y: seq<int16>, vals: seq<int16>, k: nat)
    requires 1 <= c && EchoRun(x, c, y, vals) && k < |vals|
    ensures vals[k] == Delayed(x, c, k)
    decreases k
  {
    if k >= c {
      EchoRunDelayed(x, c, y, vals, k - c);
      assert EchoStep(x, c, y, vals, k - c);
    }
  }

  /** `vals` is a run of the stereo delay's left line over channel `l` and
      `y` its output: as EchoRun, but the line stores `input + delayed / 2`
      truncated and unsaturated, and every stored value fits an `int16_t`. */
  ghost predicate DelayRun(l: seq<int16>, c: nat, y: seq<int16>, vals: seq<int16>)
  {
    |y| == |l| && |vals| == |l| + c &&
    (forall k :: 0 <= k < c ==> vals[k] == 0) &&
    (forall k :: 0 <= k < |l| ==> DelayStep(l, c, y, vals, k))
  }

  /** Step `k` of a stereo-delay run: output, then the value stored for
      step `k + c`, which (as an element of `vals`) fits an `int16_t`. */
  ghost predicate DelayStep(l: seq<int16>, c: nat, y: seq<int16>, vals: seq<int16>, k: nat)
    requires |y| == |l| && |vals| == |l| + c && k < |l|
  {
    vals[k + c] == TruncDiv2(2 * (l[k] as int) + vals[k]) && y[k] == Clamp(l[k] as int + vals[k])
  }

  /** Whenever the stores fit, every channel has a run ... */
  lemma DelayRunExists(l: seq<int16>, c: nat) returns (y: seq<int16>, vals: seq<int16>)
    requires 1 <= c && StoresFit(l, c)
    ensures DelayRun(l, c, y, vals)
  {
    y := DelayChannel(l, c);
    vals := seq(|l| + c, k requires 0 <= k < |l| + c => FittingStored(l, c, k));
  }

  ghost function FittingStored(l: seq<int16>, c: nat, k: nat): int16
    requires 1 <= c && k < |l| + c && StoresFit(l, c)
  {
    Stored(l, c, k)
  }

  /** ... and every run's output is the left channel of the stereo delay. */
  lemma DelayRunIsDelay(l: seq<int16>, c: nat, y: seq<int16>, vals: seq<int16>)
    requires 1 <= c && DelayRun(l, c, y, vals)
    ensures y == DelayChannel(l, c)
  {
    var z := DelayChannel(l, c);
    forall k | 0 <= k < |l|
      ensures y[k] == z[k]
    {
      assert DelayStep(l, c, y, vals, k);
      DelayRunStored(l, c, y, vals, k);
    }
  }

  lemma {:induction false} DelayRunStored(l: seq<int16>, c: nat, y: seq<int16>, vals: seq<int16>, k: nat)
    requires 1 <= c && DelayRun(l, c, y, vals) && k < |vals|
    ensures vals[k] == Stored(l, c, k)
    decreases k
  {
    if k >= c {
      DelayRunStored(l, c, y, vals, k - c);
      assert DelayStep(l, c, y, vals, k - c);
    }
  }

  // ---------------------------------------------------------------------
  // Properties of the effects

  /** Warm-up: the delay line starts silent, so for the first `c` samples the
      echo returns its input unchanged. */
  lemma EchoWarmUp(x: seq<int16>, c: nat, k: nat)
    requires 1 <= c && k < |x| && k < c
    ensures EchoChannel(x, c)[k] == x[k]
  {
  }

  /** Feedback timing: a slot is read, then overwritten with
      `clamp(input + delayed / 2)`, and that value is what the output sees
      exactly `c` samples later. */
  lemma EchoFeedbackTiming(x: seq<int16>, c: nat, k: nat)
    requires 1 <= c && k + c < |x|
    ensures EchoChannel(x, c)[k + c] == Clamp(x[k + c] + Feedback(x[k], Delayed(x, c, k)))
  {
  }

  /** An impulse through an echo of capacity 2: the impulse itself, then a
      first repeat at full amplitude (the feedback stores `input + delayed / 2`,
      and the delayed part is still zero), then a repeat at half amplitude. */
  lemma EchoImpulse()
    ensures EchoChannel([1000, 0, 0, 0, 0, 0, 0], 2) == [1000, 0, 1000, 0, 500, 0, 250]
  {
    var x: seq<int16> := [1000, 0, 0, 0, 0, 0, 0];
    var y := EchoChannel(x, 2);
    assert Delayed(x, 2, 2) == Feedback(1000, 0) == 1000;
    assert Delayed(x, 2, 3) == Feedback(0, 0) == 0;
    assert Delayed(x, 2, 4) == Feedback(0, 1000) == 500;
    assert Delayed(x, 2, 5) == Feedback(0, 0) == 0;
    assert Delayed(x, 2, 6) == Feedback(0, 500) == 250;
    assert y[0] == 1000 && y[1] == 0 && y[2] == 1000 && y[3] == 0;
    assert y[4] == 500 && y[5] == 0 && y[6] == 250;
  }

  /** The delay line is causal: what it yields at step `k` depends only on
      the input before `k`. */
  lemma {:induction false} DelayedCausal(x: seq<int16>, x': seq<int16>, c: nat, k: nat)
    requires 1 <= c && k < |x| + c && k < |x'| + c
    requires forall j :: 0 <= j < k && j < |x| && j < |x'| ==> x[j] == x'[j]
    ensures Delayed(x, c, k) == Delayed(x', c, k)
    decreases k
  {
    if k >= c {
      DelayedCausal(x, x', c, k - c);
    }
  }

  /** Hence the echo output on a prefix is the prefix of the echo output. */
  lemma EchoPrefix(x: seq<int16>, c: nat, m: nat)
    requires 1 <= c && m <= |x|
    ensures EchoChannel(x[..m], c) == EchoChannel(x, c)[..m]
  {
    var p := x[..m];
    var y, z := EchoChannel(p, c), EchoChannel(x, c);
    forall k | 0 <= k < m
      ensures y[k] == z[k]
    {
      assert forall j :: 0 <= j < k ==> p[j] == x[j];
      DelayedCausal(p, x, c, k);
    }
    assert y == z[..m];
  }

  /** While no stored value leaves the `int16_t` range, the unsaturated store
      of the stereo delay and the saturated feedback of the echo hold the
      same values. */
  lemma {:induction false} StoredIsDelayed(l: seq<int16>, c: nat, f: nat)
    requires 1 <= c && f < |l| + c && StoresFit(l, c)
    ensures Stored(l, c, f) == Delayed(l, c, f)
    decreases f
  {
    if f >= c {
      StoredIsDelayed(l, c, f - c);
      assert Min16 <= Stored(l, c, f) <= Max16;
    }
  }

  /** So, whenever its stores fit, the stereo delay's left channel is the
      echo of that channel with the same capacity ... */
  lemma DelayChannelIsEchoChannel(l: seq<int16>, c: nat)
    requires 1 <= c && StoresFit(l, c)
    ensures DelayChannel(l, c) == EchoChannel(l, c)
  {
    var y, z := DelayChannel(l, c), EchoChannel(l, c);
    forall f | 0 <= f < |l|
      ensures y[f] == z[f]
    {
      StoredIsDelayed(l, c, f);
    }
    assert y == z;
  }

  /** ... and the stereo delay produces exactly the output of the stereo echo. */
  lemma DelayStereoIsEchoStereo(x: seq<int16>, c: nat)
    requires 1 <= c && StoresFit(Left(x), c)
    ensures DelayStereo(x, c) == EchoStereo(x, c)
  {
    DelayChannelIsEchoChannel(Left(x), c);
  }

  /** A left channel within half of full scale can never make a store
      overflow: the stored magnitude stays at most 32767 (resp. 32768). */
  lemma {:induction false} HalfScaleStoresFit(l: seq<int16>, c: nat)
    requires 1 <= c
    requires forall f :: 0 <= f < |l| ==> -16384 <= l[f] <= 16384
    ensures StoresFit(l, c)
  {
    forall f | 0 <= f < |l| + c
      ensures Min16 <= Stored(l, c, f) <= Max16
    {
      HalfScaleStoredBound(l, c, f);
    }
  }

  lemma {:induction false} HalfScaleStoredBound(l: seq<int16>, c: nat, f: nat)
    requires 1 <= c && f < |l| + c
    requires forall j :: 0 <= j < |l| ==> -16384 <= l[j] <= 16384
    ensures Min16 <= Stored(l, c, f) <= Max16
    decreases f
  {
    if f >= c {
      HalfScaleStoredBound(l, c, f - c);
    }
  }

  /** A loud left channel does overflow: with capacity 1, two frames of 30000
      lead to a store of 30000 + 30000 / 2 = 45000. */
  lemma LoudStoreOverflows()
    ensures !StoresFit([30000, 30000], 1)
  {
    var l: seq<int16> := [30000, 30000];
    assert Stored(l, 1, 1) == 30000;
    assert Stored(l, 1, 2) == 45000;
  }
}
