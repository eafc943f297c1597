/** The echo and delay effects as the program runs them: a zero-initialised
    delay line per channel, a cursor that is read before the slot is written
    and wraps modulo the capacity, and an output buffer written in place.
    Each loop is proved to compute the reference definitions of module
    DelayLine. The ambient format fields the effects consult (sample rate
    and channel count) are passed in as parameters. */
module Effects {
  import opened Pcm
  import opened Stereo
  import opened DelayLine
  import opened Cursor

  /** Capacity of audioDelay's delay line, whatever the sample rate. */
  const DelayCapacity: nat := 24000

  /** Largest sample rate for which `0.5f * freq` is computed exactly in
      single precision (2^24). */
  const MaxExactFreq: int := 0x100_0000

  /** audioEcho's capacity `static_cast<int>(0.5f * freq)`: half a second of
      samples, rounded down. */
  function EchoCapacity(freq: int): (c: nat)
    requires 0 <= freq <= MaxExactFreq
    ensures 2 * c <= freq < 2 * c + 2
  {
    freq / 2
  }

  /** The step at which slot `j` of a ring of capacity `c` is read next, when
      step `i` is about to read the slot under the cursor `p`. */
  function NextRead(i: nat, p: nat, j: nat, c: nat): nat
    requires p < c && j < c
  {
    if p <= j then i + (j - p) else i + (c - p) + j
  }

  /** The ring of capacity `c` under cursor `p`, about to run step `i`,
      holds in every slot the value that `vals` assigns to the step at which
      that slot is read next. */
  ghost predicate RingHolds(buf: seq<int>, vals: seq<int>, i: nat, p: nat, c: nat)
  {
    |buf| == c && p < c && i + c <= |vals| &&
    forall j {:trigger NextRead(i, p, j, c)} :: 0 <= j < c ==> buf[j] == vals[NextRead(i, p, j, c)]
  }

  /** One step of the ring: the slot under the cursor holds the value for
      step `i`; after it is overwritten with the value for step `i + c` and
      the cursor advances, the ring holds for step `i + 1`. */
  lemma RingAdvance(buf: seq<int>, vals: seq<int>, i: nat, p: nat, c: nat)
    requires RingHolds(buf, vals, i, p, c) && i + c < |vals|
    ensures buf[p] == vals[i]
    ensures RingHolds(buf[p := vals[i + c]], vals, i + 1, if p + 1 == c then 0 else p + 1, c)
  {
    assert NextRead(i, p, p, c) == i;
    var p' := if p + 1 == c then 0 else p + 1;
    var buf' := buf[p := vals[i + c]];
    forall j | 0 <= j < c
      ensures buf'[j] == vals[NextRead(i + 1, p', j, c)]
    {
      if j != p {
        assert NextRead(i + 1, p', j, c) == NextRead(i, p, j, c);
      }
    }
  }

  /** A step of an echo run on the ring: the slot under the cursor holds
      the delayed sample, from which the run's output and feedback follow;
      storing the feedback there and advancing the cursor keeps the ring. */
  lemma EchoAdvance(x: seq<int16>, c: nat, y: seq<int16>, vals: seq<int16>, ring: seq<int16>, i: nat, p: nat)
    requires 1 <= c && EchoRun(x, c, y, vals) && i < |x| && RingHolds(ring, vals, i, p, c)
    ensures y[i] == Clamp(x[i] as int + ring[p])
    ensures RingHolds(ring[p := Feedback(x[i], ring[p])], vals, i + 1, (p + 1) % c, c)
  {
    RingAdvance(ring, vals, i, p, c);
    assert EchoStep(x, c, y, vals, i);
    CursorStep(p, c);
  }

  /** The same for a stereo-delay run, whose store is not saturated. */
  lemma DelayAdvance(l: seq<int16>, c: nat, y: seq<int16>, vals: seq<int16>, ring: seq<int16>, f: nat, p: nat)
    requires 1 <= c && DelayRun(l, c, y, vals) && f < |l| && RingHolds(ring, vals, f, p, c)
    ensures y[f] == Clamp(l[f] as int + ring[p])
    ensures Min16 <= TruncDiv2(2 * (l[f] as int) + ring[p]) <= Max16
    ensures RingHolds(ring[p := TruncDiv2(2 * (l[f] as int) + ring[p])], vals, f + 1, (p + 1) % c, c)
  {
    RingAdvance(ring, vals, f, p, c);
    assert DelayStep(l, c, y, vals, f);
    CursorStep(p, c);
  }

  /** The buffer `now` holds the first `i` samples of `y`, and past them
      the samples of `base`. */
  ghost predicate PrefixDone(now: seq<int16>, base: seq<int16>, y: seq<int16>, i: nat)
  {
    i <= |y| && i <= |now| == |base| && now[..i] == y[..i] && now[i..] == base[i..]
  }

  /** Writing sample `i` extends the finished prefix by one. */
  lemma MonoStep(before: seq<int16>, now: seq<int16>, base: seq<int16>, y: seq<int16>, i: nat)
    requires PrefixDone(before, base, y, i) && i < |y| && i < |before|
    requires now == before[i := y[i]]
    ensures PrefixDone(now, base, y, i + 1)
  {
    assert now[..i + 1] == before[..i] + [y[i]];
    assert y[..i + 1] == y[..i] + [y[i]];
    assert now[i + 1..] == before[i..][1..];
  }

  /** Stores one output sample at index `i`. */
  method WriteSample(out: array<int16>, i: nat, v: int16)
    requires i < out.Length
    modifies out
    ensures out[..] == old(out[..])[i := v]
  {
    out[i] := v;
  }

  /** The mono loop of audioEcho and audioDelay: each sample reads the slot
      under the cursor, emits the saturated sum, writes the saturated
      feedback into the same slot and advances the cursor. Only the first
      `|x|` output samples are written. */
  method ProcessMono(x: seq<int16>, c: nat, out: array<int16>)
    requires 1 <= c && |x| <= out.Length
    modifies out
    ensures out[..] == EchoChannel(x, c) + old(out[|x|..])
  {
    var delayBuffer := new int16[c](_ => 0);
    ghost var y, vals := EchoRunExists(x, c);
    var bufptr := 0;
    var i := 0;
    while i < |x|
      invariant 0 <= i <= |x| && 0 <= bufptr < c && bufptr == i % c
      invariant RingHolds(delayBuffer[..], vals, i, bufptr, c)
      invariant PrefixDone(out[..], old(out[..]), y, i)
    {
      CursorIsStepModCapacity(i, bufptr, c);
      ghost var ring := delayBuffer[..];
      var delayedSample := delayBuffer[bufptr];
      EchoAdvance(x, c, y, vals, ring, i, bufptr);
      ghost var before := out[..];
      WriteSample(out, i, Clamp(x[i] as int + delayedSample));
      MonoStep(before, out[..], old(out[..]), y, i);
      delayBuffer[bufptr] := Feedback(x[i], delayedSample);
      assert delayBuffer[..] == ring[bufptr := Feedback(x[i], delayedSample)];
      bufptr := (bufptr + 1) % c;
      i := i + 1;
    }
    EchoRunIsEcho(x, c, y, vals);
    assert y[..i] == y;
    assert out[..] == out[..i] + out[i..];
  }

  /** The stereo loop of audioEcho: one cursor shared by two delay lines,
      advanced once per frame. The left channel is echoed; the right output
      is the right input, and what the right delay line stores is never read
      into any output. */
  method ProcessStereoEcho(x: seq<int16>, c: nat, out: array<int16>)
    requires 1 <= c && |x| % 2 == 0 && |x| <= out.Length
    modifies out
    ensures out[..] == EchoStereo(x, c) + old(out[|x|..])
  {
    var delayBufferL := new int16[c](_ => 0);
    var delayBufferR := new int16[c](_ => 0);
    ghost var l, r := Left(x), Right(x);
    ghost var y, vals := EchoRunExists(l, c);
    var bufptr := 0;
    var i := 0;
    ghost var f := 0;
    while i < |x|
      invariant 0 <= i <= |x| && i == 2 * f && 0 <= bufptr < c && bufptr == f % c
      invariant RingHolds(delayBufferL[..], vals, f, bufptr, c)
      invariant FramesDone(out[..], old(out[..]), y, r, f)
    {
      CursorIsStepModCapacity(f, bufptr, c);
      ghost var ring := delayBufferL[..];
      var delayedL := delayBufferL[bufptr];
      var delayedR := delayBufferR[bufptr];
      LeftRightAt(x, f);
      var inputL, inputR := x[i], x[i + 1];
      EchoAdvance(l, c, y, vals, ring, f, bufptr);
      ghost var before := out[..];
      WriteFrame(out, i, Clamp(inputL as int + delayedL), Clamp(inputR));
      delayBufferL[bufptr] := Feedback(inputL, delayedL);
      delayBufferR[bufptr] := Clamp(inputR);
      assert delayBufferL[..] == ring[bufptr := Feedback(inputL, delayedL)];
      StereoStep(before, out[..], old(out[..]), y, r, f);
      bufptr := (bufptr + 1) % c;
      i, f := i + 2, f + 1;
    }
    EchoRunIsEcho(l, c, y, vals);
    AllFramesDone(out[..], old(out[..]), y, r);
  }

  /** The stereo loop of audioDelay: the left delay line receives
      `input + delayed * 0.5f` without saturation (the caller guarantees it
      fits an `int16_t`), only the emitted left sample is saturated, and the
      right channel passes through with no delay line at all. */
  method ProcessStereoDelay(x: seq<int16>, c: nat, out: array<int16>)
    requires 1 <= c && |x| % 2 == 0 && |x| <= out.Length
    requires StoresFit(Left(x), c)
    modifies out
    ensures out[..] == DelayStereo(x, c) + old(out[|x|..])
  {
    var delayBufferL := new int16[c](_ => 0);
    ghost var l, r := Left(x), Right(x);
    ghost var y, vals := DelayRunExists(l, c);
    var bufptr := 0;
    var i := 0;
    ghost var f := 0;
    while i < |x|
      invariant 0 <= i <= |x| && i == 2 * f && 0 <= bufptr < c && bufptr == f % c
      invariant RingHolds(delayBufferL[..], vals, f, bufptr, c)
      invariant FramesDone(out[..], old(out[..]), y, r, f)
    {
      CursorIsStepModCapacity(f, bufptr, c);
      ghost var ring := delayBufferL[..];
      var delayedL := delayBufferL[bufptr];
      LeftRightAt(x, f);
      var inputL, inputR := x[i], x[i + 1];
      DelayAdvance(l, c, y, vals, ring, f, bufptr);
      var stored: int16 := TruncDiv2(2 * (inputL as int) + delayedL);
      delayBufferL[bufptr] := stored;
      assert delayBufferL[..] == ring[bufptr := stored];
      ghost var before := out[..];
      WriteFrame(out, i, Clamp(inputL as int + delayedL), Clamp(inputR));
      StereoStep(before, out[..], old(out[..]), y, r, f);
      bufptr := (bufptr + 1) % c;
      i, f := i + 2, f + 1;
    }
    DelayRunIsDelay(l, c, y, vals);
    AllFramesDone(out[..], old(out[..]), y, r);
  }

  /** audioEcho: a delay line of half a second at the ambient sample rate,
      mono or stereo according to the ambient channel count; any other
      channel count leaves the output untouched. Always returns 0. */
  method AudioEcho(numSamples: int, input: seq<int16>, out: array<int16>, freq: int, channels: int)
    returns (status: int)
    requires SampleCount(numSamples) <= |input| && SampleCount(numSamples) <= out.Length
    requires channels == 2 ==> SampleCount(numSamples) % 2 == 0
    requires channels == 1 || channels == 2 ==> 0 <= freq && (numSamples > 0 ==> 2 <= freq <= MaxExactFreq)
    modifies out
    ensures status == 0
    ensures channels == 1 && numSamples > 0 ==>
      out[..] == EchoChannel(input[..numSamples], EchoCapacity(freq)) + old(out[numSamples..])
    ensures channels == 2 && numSamples > 0 ==>
      out[..] == EchoStereo(input[..numSamples], EchoCapacity(freq)) + old(out[numSamples..])
    ensures (channels != 1 && channels != 2) || numSamples <= 0 ==> out[..] == old(out[..])
  {
    var n := SampleCount(numSamples);
    if (channels == 1 || channels == 2) && n > 0 {
      var c := EchoCapacity(freq);
      if channels == 1 {
        ProcessMono(input[..n], c, out);
      } else {
        ProcessStereoEcho(input[..n], c, out);
      }
    }
    status := 0;
  }

  /** audioDelay: the same effect with a fixed capacity of 24000 samples, so
      the sample rate plays no part. In stereo every stored left value must
      fit an `int16_t`. Always returns 0. */
  method AudioDelay(numSamples: int, input: seq<int16>, out: array<int16>, channels: int)
    returns (status: int)
    requires SampleCount(numSamples) <= |input| && SampleCount(numSamples) <= out.Length
    requires channels == 2 ==> SampleCount(numSamples) % 2 == 0
    requires channels == 2 ==> StoresFit(Left(input[..SampleCount(numSamples)]), DelayCapacity)
    modifies out
    ensures status == 0
    ensures channels == 1 && numSamples > 0 ==>
      out[..] == EchoChannel(input[..numSamples], DelayCapacity) + old(out[numSamples..])
    ensures channels == 2 && numSamples > 0 ==>
      out[..] == DelayStereo(input[..numSamples], DelayCapacity) + old(out[numSamples..])
    ensures (channels != 1 && channels != 2) || numSamples <= 0 ==> out[..] == old(out[..])
  {
    var n := SampleCount(numSamples);
    if n > 0 {
      if channels == 1 {
        ProcessMono(input[..n], DelayCapacity, out);
      } else if channels == 2 {
        ProcessStereoDelay(input[..n], DelayCapacity, out);
      }
    }
    status := 0;
  }
}
