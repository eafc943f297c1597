/** Sample arithmetic shared by the effects and the synthesizers: the 16-bit
    sample type, the saturation applied before every store into an `int16_t`,
    and the truncating conversion that turns an accumulation back into a
    sample. */
module Pcm {

  /** A value held in an `int16_t`. */
  type int16 = x: int | -32768 <= x <= 32767

  const Min16: int := -32768
  const Max16: int := 32767

  /** `std::max(std::min(v, 32767.0f), -32768.0f)`: the nearest representable
      sample. Values already in range are kept. */
  function Clamp(v: int): (r: int16)
    ensures Min16 <= v <= Max16 ==> r == v
    ensures v > Max16 ==> r == Max16
    ensures v < Min16 ==> r == Min16
  {
    if v > Max16 then Max16 else if v < Min16 then Min16 else v
  }

  /** `static_cast` of the exact value `v / 2` to an integer: the quotient is
      rounded toward zero (C++), not toward minus infinity (Dafny's `/`). */
  function TruncDiv2(v: int): (r: int)
    ensures 0 <= v ==> 0 <= v - 2 * r <= 1
    ensures v < 0 ==> 0 <= 2 * r - v <= 1
  {
    if v >= 0 then v / 2 else -((-v) / 2)
  }

  /** The echo's feedback `clamp(input + delayed * 0.5f)` stored back as an
      `int16_t`. The float sum is exact (it is a half-integer below 2^17),
      and since both bounds are integers, clamping the exact value and then
      truncating equals truncating first and clamping afterwards. */
  function Feedback(input: int16, delayed: int16): int16
  {
    Clamp(TruncDiv2(2 * input + delayed))
  }

  /** The number of samples a `for (i = 0; i < numSamples; ...)` loop visits. */
  function SampleCount(numSamples: int): nat
  {
    if numSamples > 0 then numSamples else 0
  }

  /** Saturation is idempotent: clamping an already clamped value changes nothing. */
  lemma ClampIdempotent(v: int)
    ensures Clamp(Clamp(v)) == Clamp(v)
  {
  }

  /** The clamped value is the representable sample nearest to `v`. */
  lemma ClampIsNearest(v: int, s: int16)
    ensures Dist(Clamp(v), v) <= Dist(s, v)
  {
  }

  function Dist(a: int, b: int): nat
  {
    if a >= b then a - b else b - a
  }

  /** The feedback written into the echo's delay line never exceeds the
      input plus half the delayed sample in magnitude, and it keeps the sign
      of that sum: saturation and truncation only pull it toward zero. */
  lemma FeedbackTowardZero(input: int16, delayed: int16)
    ensures 0 <= 2 * input + delayed ==> 0 <= 2 * Feedback(input, delayed) <= 2 * input + delayed
    ensures 2 * input + delayed <= 0 ==> 2 * input + delayed <= 2 * Feedback(input, delayed) <= 0
  {
  }

  // ---------------------------------------------------------------------
  // The floating-point expressions the effects evaluate

  /** `std::max(std::min(v, 32767.0f), -32768.0f)` on an exact value. */
  function ClampReal(v: real): (r: real)
    ensures -32768.0 <= r <= 32767.0
  {
    if v > 32767.0 then 32767.0 else if v < -32768.0 then -32768.0 else v
  }

  /** `static_cast<int16_t>` of an in-range value: truncation toward zero. */
  function TruncReal(v: real): int
  {
    if v >= 0.0 then v.Floor else -((-v).Floor)
  }

  /** The output `clamp(input + delayed)` computed on the exact sum and then
      truncated is the integer model's saturated sum. The sum of two samples
      is exact in `float`. */
  lemma OutputIsFloat(input: int16, delayed: int16)
    ensures TruncReal(ClampReal(input as real + delayed as real)) == Clamp(input + delayed)
  {
  }

  /** The echo feedback `clamp(input + delayed * 0.5f)`, computed exactly
      (a half-integer below 2^17 is exact in `float`) and truncated, is
      Feedback. */
  lemma FeedbackIsFloat(input: int16, delayed: int16)
    ensures TruncReal(ClampReal(input as real + delayed as real * 0.5)) == Feedback(input, delayed)
  {
  }

  /** The stereo delay's store `input + delayed * 0.5f`, truncated without
      saturation, is TruncDiv2 of `2 * input + delayed`. */
  lemma StoreIsFloat(input: int16, delayed: int16)
    ensures TruncReal(input as real + delayed as real * 0.5) == TruncDiv2(2 * input + delayed)
  {
  }
}
