/** The two test-tone synthesizers and the program state they share: the
    sample rate of the ambient audio format, which each synthesizer
    overwrites, and the wave-table cursor `sine_ptr`, which persists from one
    call to the next. Both write interleaved stereo: a tone on the left, silence
    on the right. The samples handed in are ignored by both. */
module Synth {
  import opened Pcm
  import opened Stereo
  import opened Cursor

  /** `SQUARE_LENGTH`, the number of entries of the square-wave table. */
  const SquareLength: nat := 64
  /** `LOOP_LENGTH`, the period the sine synthesizer wraps the cursor to. */
  const LoopLength: nat := 8
  /** The sample rates the synthesizers declare. */
  const SquareRate: int := 8000
  const SineRate: int := 16000

  /** The initial contents of the table `square_wave`: one period of a
      square wave, its first 32 entries at +10000 (`SquareHigh`) and its last
      32 at -10000 (`SquareLow`). */
  const SquareTable: seq<int16> := SquareHigh + SquareLow
  const SquareHigh: seq<int16> := [
    10000, 10000, 10000, 10000,
    10000, 10000, 10000, 10000,
    10000, 10000, 10000, 10000,
    10000, 10000, 10000, 10000,
    10000, 10000, 10000, 10000,
    10000, 10000, 10000, 10000,
    10000, 10000, 10000, 10000,
    10000, 10000, 10000, 10000
  ]
  const SquareLow: seq<int16> := [
    -10000, -10000, -10000, -10000,
    -10000, -10000, -10000, -10000,
    -10000, -10000, -10000, -10000,
    -10000, -10000, -10000, -10000,
    -10000, -10000, -10000, -10000,
    -10000, -10000, -10000, -10000,
    -10000, -10000, -10000, -10000,
    -10000, -10000, -10000, -10000
  ]

  /** The number of frames a `for (i = 0; i < numSamples; i += 2)` loop
      visits: every sample index is covered, an odd count by one extra frame. */
  function Frames(numSamples: int): (n: nat)
    ensures SampleCount(numSamples) <= 2 * n <= SampleCount(numSamples) + 1
  {
    (SampleCount(numSamples) + 1) / 2
  }

  /** The left channel of the square synthesizer: `frames` consecutive
      entries of `table` read from cursor `start` on, wrapping after 64. */
  function SquareTone(table: seq<int16>, start: nat, frames: nat): (s: seq<int16>)
    requires |table| == SquareLength
    ensures |s| == frames
  {
    seq(frames, f requires 0 <= f < frames => table[(start + f) % SquareLength])
  }

  /** The left sample the sine synthesizer writes at sample index `i`: the
      value `wave(i)` that the floating-point expression
      `10000*sin(2*PI*(sampleMult*i)/8)` yields, truncated toward zero, then
      saturated. */
  function SineSample(wave: int -> int, i: int): int16
  {
    Clamp(wave(i))
  }

  /** The left channel of the sine synthesizer, one sample per frame. */
  function SineTone(wave: int -> int, frames: nat): (s: seq<int16>)
    ensures |s| == frames
  {
    seq(frames, f requires 0 <= f < frames => SineSample(wave, 2 * f))
  }

  function Silence(n: nat): (s: seq<int16>)
    ensures |s| == n
  {
    seq(n, _ => 0)
  }

  /** An interleaved stereo buffer whose left channel is `left` and whose
      right channel is silent. */
  function LeftOnly(left: seq<int16>): (x: seq<int16>)
    ensures |x| == 2 * |left|
  {
    Interleave(left, Silence(|left|))
  }

  /** The program state the synthesizers share: `audioF.wavSpec.freq`, the
      global cursor `sine_ptr` and the global table `square_wave`. */
  class AudioGlobals {
    var freq: int
    var sinePtr: int
    var squareWave: array<int16>

    /** The cursor always indexes the square-wave table. */
    ghost predicate Valid()
      reads this
    {
      squareWave.Length == SquareLength && 0 <= sinePtr < SquareLength
    }

    /** Program start: the cursor and the table are statically initialised;
        the sample rate is whatever the loaded file declared. */
    constructor (freq: int)
      ensures Valid() && this.freq == freq && sinePtr == 0
      ensures fresh(squareWave) && squareWave[..] == SquareTable
    {
      this.freq := freq;
      sinePtr := 0;
      squareWave := new int16[SquareLength](k requires 0 <= k < SquareLength => SquareTable[k]);
    }

    /** createSquareWave: declares 8000 Hz, then for every frame emits the
        table entry under the cursor on the left and silence on the right,
        advancing the cursor modulo 64. The table itself is only read. */
    method CreateSquareWave(numSamples: int, out: array<int16>) returns (status: int)
      requires Valid() && out != squareWave && 2 * Frames(numSamples) <= out.Length
      modifies this, out
      ensures Valid() && squareWave == old(squareWave) && status == 0 && freq == SquareRate
      ensures sinePtr == (old(sinePtr) + Frames(numSamples)) % SquareLength
      ensures out[..] == LeftOnly(SquareTone(squareWave[..], old(sinePtr), Frames(numSamples)))
                         + old(out[2 * Frames(numSamples)..])
    {
      freq := SquareRate;
      ghost var frames, p0 := Frames(numSamples), sinePtr;
      ghost var left, right := SquareTone(squareWave[..], p0, frames), Silence(frames);
      var i := 0;
      ghost var f := 0;
      while i < numSamples
        invariant 0 <= f <= frames && i == 2 * f
        invariant Valid() && squareWave == old(squareWave) && freq == SquareRate
        invariant sinePtr == (p0 + f) % SquareLength
        invariant FramesDone(out[..], old(out[..]), left, right, f)
      {
        var outputL := squareWave[sinePtr];
        var outputR := 0;
        ghost var before := out[..];
        WriteFrame(out, i, Clamp(outputL), Clamp(outputR));
        StereoStep(before, out[..], old(out[..]), left, right, f);
        ModAdd(p0 + f, 1, SquareLength);
        sinePtr := (sinePtr + 1) % SquareLength;
        i, f := i + 2, f + 1;
      }
      AllFramesDone(out[..], old(out[..]), left, right);
      status := 0;
    }

    /** createSinWave: declares 16000 Hz, then for every frame emits the
        saturated sine value for sample index `i` on the left and silence on
        the right, advancing the shared cursor modulo 8 (the cursor does not
        select the sample). A call that visits no frame leaves the cursor
        where it was. */
    method CreateSinWave(numSamples: int, wave: int -> int, out: array<int16>) returns (status: int)
      requires Valid() && 2 * Frames(numSamples) <= out.Length
      modifies this, out
      ensures Valid() && squareWave == old(squareWave) && status == 0 && freq == SineRate
      ensures sinePtr == if Frames(numSamples) == 0 then old(sinePtr) else (old(sinePtr) + Frames(numSamples)) % LoopLength
      ensures out[..] == LeftOnly(SineTone(wave, Frames(numSamples))) + old(out[2 * Frames(numSamples)..])
    {
      freq := SineRate;
      ghost var frames, p0 := Frames(numSamples), sinePtr;
      ghost var left, right := SineTone(wave, frames), Silence(frames);
      var i := 0;
      ghost var f := 0;
      while i < numSamples
        invariant 0 <= f <= frames && i == 2 * f
        invariant Valid() && squareWave == old(squareWave) && freq == SineRate
        invariant sinePtr == if f == 0 then p0 else (p0 + f) % LoopLength
        invariant FramesDone(out[..], old(out[..]), left, right, f)
      {
        var outputL := wave(i);
        var outputR := 0;
        ghost var before := out[..];
        WriteFrame(out, i, Clamp(outputL), Clamp(outputR));
        StereoStep(before, out[..], old(out[..]), left, right, f);
        if f > 0 {
          ModAdd(p0 + f, 1, LoopLength);
        }
        sinePtr := (sinePtr + 1) % LoopLength;
        i, f := i + 2, f + 1;
      }
      AllFramesDone(out[..], old(out[..]), left, right);
      status := 0;
    }
  }

  // ---------------------------------------------------------------------
  // Properties of the square wave

  /** The table holds +10000 in its first half and -10000 in its second. */
  lemma SquareTableHalves(k: nat)
    requires k < SquareLength
    ensures SquareTable[k] == if k < SquareLength / 2 then 10000 else -10000
  {
  }

  /** Frame `f` from cursor `start` is high exactly when the cursor, advanced
      `f` times, is in the first half of the table: a 50% duty-cycle square
      wave with a period of 64 frames. */
  lemma SquareToneAt(start: nat, frames: nat, f: nat)
    requires f < frames
    ensures SquareTone(SquareTable, start, frames)[f] == if (start + f) % SquareLength < 32 then 10000 else -10000
  {
    SquareTableHalves((start + f) % SquareLength);
  }

  /** Started from cursor 0, one period of 64 frames reproduces the table
      exactly: 32 frames at 10000, then 32 at -10000. */
  lemma SquareFromZero(table: seq<int16>)
    requires |table| == SquareLength
    ensures SquareTone(table, 0, SquareLength) == table
  {
    var s := SquareTone(table, 0, SquareLength);
    forall f | 0 <= f < SquareLength
      ensures s[f] == table[f]
    {
      ModUnique(f, 0, f, SquareLength);
    }
  }

  /** Because the cursor persists, two consecutive square-wave buffers join
      without a phase jump: the second continues where the first stopped. */
  lemma SquareContinues(table: seq<int16>, start: nat, a: nat, b: nat)
    requires |table| == SquareLength
    ensures LeftOnly(SquareTone(table, start, a)) + LeftOnly(SquareTone(table, (start + a) % SquareLength, b))
         == LeftOnly(SquareTone(table, start, a + b))
  {
    var s1, s2 := SquareTone(table, start, a), SquareTone(table, (start + a) % SquareLength, b);
    var s := SquareTone(table, start, a + b);
    forall g | 0 <= g < b
      ensures s2[g] == s[a + g]
    {
      ModAdd(start + a, g, SquareLength);
    }
    assert s1 + s2 == s;
    assert Silence(a) + Silence(b) == Silence(a + b);
    InterleaveAppend(s1, Silence(a), s2, Silence(b));
  }
}
