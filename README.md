# A verified model of the SDL audio DSP routines

This project models the signal-processing core of `SDL_1/audiodsp.cpp`, a small SDL program. The program loads a WAV file, runs an effect or a synthesizer over its samples, plays the result and can save it back as a WAV file. The model covers five parts:

- **The two ring-buffer effects** (module `Effects`, with reference definitions in `DelayLine`):
  - `audioEcho` has a delay line of half a second at the file's sample rate.
  - `audioDelay` has a fixed delay line of 24000 samples.
  - The delay lines start at zero. One cursor is read before its slot is written and wraps modulo the capacity.
  - `audioEcho` keeps a delay line per channel, and the output and the feedback it stores are saturated to the `int16_t` range.
  - `audioDelay` in mono runs the same algorithm as `audioEcho`. In stereo it is different:
    - it has a delay line for the left channel only, and the right channel passes straight through;
    - the left store `input + delayed * 0.5` is not saturated, and only the emitted sample is.
  - Every conversion to `int16_t` truncates toward zero.
  - Each in-place loop over arrays is proved to compute a whole-buffer reference function. That function is defined by a recurrence on the samples `c` steps earlier.
- **The two test-tone synthesizers** (module `Synth`):
  - `createSquareWave` and `createSinWave` are methods of a class.
  - The class holds the program state they share: the ambient sample rate, the global cursor `sine_ptr` and the 64-entry table `square_wave`.
- **The WAV writer** (module `Wav`):
  - `saveWavFile`'s output is modelled as a pure function to bytes: a 44-byte RIFF WAVE header with a PCM `fmt ` chunk and a `data` chunk, then the samples, all little-endian.
  - The `uint32_t` and `uint16_t` arithmetic of the header is written out, including wrap-around.
  - A decoder reads the bytes back, and the round trip is proved.
- **The format check** at line 74 of the source: 16-bit signed little-endian, mono or stereo (`Wav.Supported`).
- **Shared arithmetic** (`Pcm`), the wrapping cursor (`Cursor`) and interleaved stereo buffers (`Stereo`).

## Floating point in the effects

The effects compute in `float`, but every value they form is exact in single precision:

- the sum of two samples;
- a sample plus half a sample.

So the model uses integers. An output is `Clamp(in + delayed)`. The echo feedback is `Clamp(TruncDiv2(2 * in + delayed))`. `TruncDiv2` rounds toward zero, as `static_cast<int16_t>` does. Lemmas in `Pcm` prove that these integer forms equal the real-valued expressions saturated and then truncated (`OutputIsFloat`, `FeedbackIsFloat`, `StoreIsFloat`).

## The first echo is not attenuated

Take an echo with capacity 2 and input `[1000, 0, 0, ...]`. One might expect the first repeat at half amplitude (`[1000, 0, 500, ...]`). The code stores `input + delayed * 0.5`, and the delayed part of the impulse's own slot is still zero. So the first repeat comes back at full amplitude, and only later repeats are halved: `[1000, 0, 1000, 0, 500, 0, 250]` (`DelayLine.EchoImpulse`).

## Model

| member | source | states |
|---|---|---|
| Pcm.Clamp | SDL_1/audiodsp.cpp:98 | in-range values are kept; above 32767 gives 32767, below -32768 gives -32768 |
| Pcm.ClampIsNearest | SDL_1/audiodsp.cpp:98 | the saturated value is the `int16_t` nearest to the unsaturated one |
| Pcm.TruncDiv2 | SDL_1/audiodsp.cpp:100-102 | halving is truncated toward zero: the remainder is 0 or 1 with the sign of the dividend |
| Pcm.OutputIsFloat | SDL_1/audiodsp.cpp:97-99 | `clamp(input + delayed)` on the exact sum, truncated to `int16_t`, is the model's `Clamp(input + delayed)` for every pair of samples |
| Pcm.FeedbackIsFloat | SDL_1/audiodsp.cpp:100-102 | the echo feedback `clamp(input + delayed * 0.5)` on the exact value, truncated, is the model's `Feedback(input, delayed)` for every pair of samples |
| Pcm.StoreIsFloat | SDL_1/audiodsp.cpp:168 | the stereo delay's store `input + delayed * 0.5` truncated without saturation is `TruncDiv2(2 * input + delayed)` |
| Pcm.FeedbackTowardZero | SDL_1/audiodsp.cpp:100-102 | the stored feedback keeps the sign of `input + delayed / 2` and never exceeds it in magnitude |
| Cursor.CursorStep | SDL_1/audiodsp.cpp:103 | `(bufptr + 1) % size` moves one slot on and wraps to 0 exactly at the capacity |
| Cursor.CursorIsStepModCapacity | SDL_1/audiodsp.cpp:92-103 | one advance `(bufptr + 1) % size` keeps the cursor equal to the step count modulo the capacity; the effect loops carry this as an invariant |
| Cursor.ModAdd | SDL_1/audiodsp.cpp:262 | advancing a wrapped cursor `b` more times lands where advancing `a + b` times from the start would |
| Effects.EchoCapacity | SDL_1/audiodsp.cpp:87 | the echo capacity `c` satisfies `2c <= freq < 2c + 2`, i.e. half a second of samples rounded down |
| Effects.RingAdvance | SDL_1/audiodsp.cpp:94-103 | the slot under the cursor holds the value for the current step; after it is overwritten with the value for `c` steps later and the cursor advances, every slot holds the value for the step at which it is next read |
| Effects.EchoAdvance | SDL_1/audiodsp.cpp:94-103 | one echo step emits `Clamp(input + slot)` and leaves the ring holding the run's values for the next step |
| Effects.DelayAdvance | SDL_1/audiodsp.cpp:160-174 | one stereo-delay step emits `Clamp(input + slot)`, stores the unsaturated `input + slot / 2` (which fits by hypothesis), and keeps the ring in step |
| Effects.WriteSample | SDL_1/audiodsp.cpp:99 | one output store changes exactly index `i` |
| Effects.ProcessMono | SDL_1/audiodsp.cpp:91-104 | the mono loop writes exactly the echo of its input (`EchoChannel`) into the first `N` outputs and leaves the rest of the buffer as it was; throughout, the cursor is the sample index modulo the capacity |
| Effects.ProcessStereoEcho | SDL_1/audiodsp.cpp:107-128 | the stereo echo loop writes the echoed left channel interleaved with the unchanged right channel (`EchoStereo`); nothing past `N` changes; the shared cursor is the frame index modulo the capacity |
| Effects.ProcessStereoDelay | SDL_1/audiodsp.cpp:157-174 | the stereo delay loop writes `DelayStereo`: left through the unsaturated-store delay line, right passed through; nothing past `N` changes; the cursor is the frame index modulo the capacity |
| Effects.AudioEcho | SDL_1/audiodsp.cpp:82-132 | returns 0; mono gives the echo at capacity `freq / 2`, stereo gives the stereo echo; any other channel count, or no samples, leaves the output untouched |
| Effects.AudioDelay | SDL_1/audiodsp.cpp:134-188 | returns 0; mono gives the echo at capacity 24000, stereo gives the stereo delay; any other channel count, or no samples, leaves the output untouched |
| DelayLine.EchoRunExists | SDL_1/audiodsp.cpp:91-104 | every channel has a run of the step-by-step description: silence for `c` steps, then each slot is read, output and overwritten with the feedback |
| DelayLine.EchoRunIsEcho | SDL_1/audiodsp.cpp:91-104 | any output satisfying that description is the reference echo, so the description determines the output |
| DelayLine.EchoRunDelayed | SDL_1/audiodsp.cpp:94-103 | every value a run's delay line yields is the one the recurrence `Delayed` gives |
| DelayLine.DelayRunExists | SDL_1/audiodsp.cpp:157-174 | while every store fits `int16_t`, every left channel has a run of the stereo delay's step-by-step description |
| DelayLine.DelayRunIsDelay | SDL_1/audiodsp.cpp:157-174 | any output satisfying that description is the reference left channel of the stereo delay |
| DelayLine.DelayRunStored | SDL_1/audiodsp.cpp:160-168 | every value a stereo-delay run stores is the one the recurrence `Stored` gives |
| DelayLine.EchoWarmUp | SDL_1/audiodsp.cpp:91-99 | for the first `c` samples the echo returns its input unchanged |
| DelayLine.EchoFeedbackTiming | SDL_1/audiodsp.cpp:100-103 | the feedback stored at step `k` is what the output adds exactly `c` samples later |
| DelayLine.EchoImpulse | SDL_1/audiodsp.cpp:91-104 | capacity 2, input `[1000, 0, 0, 0, 0, 0, 0]`: the output is `[1000, 0, 1000, 0, 500, 0, 250]` |
| DelayLine.DelayedCausal | SDL_1/audiodsp.cpp:94-103 | what the delay line yields at step `k` depends only on the inputs before `k` |
| DelayLine.EchoPrefix | SDL_1/audiodsp.cpp:93-104 | echoing a prefix of the input gives the prefix of the echo |
| DelayLine.StoredIsDelayed | SDL_1/audiodsp.cpp:121-125 | while no store overflows, the unsaturated store of the stereo delay equals the saturated feedback of the echo |
| DelayLine.DelayChannelIsEchoChannel | SDL_1/audiodsp.cpp:157-174 | while no store overflows, the stereo delay's left channel is the echo of that channel |
| DelayLine.DelayStereoIsEchoStereo | SDL_1/audiodsp.cpp:134-188 | while no store overflows, stereo `audioDelay` produces exactly the output of stereo `audioEcho` at the same capacity |
| DelayLine.HalfScaleStoresFit | SDL_1/audiodsp.cpp:168 | a left channel within half of full scale never makes a stereo-delay store overflow |
| DelayLine.HalfScaleStoredBound | SDL_1/audiodsp.cpp:168 | with inputs in `[-16384, 16384]` every stored value lies in the `int16_t` range |
| DelayLine.LoudStoreOverflows | SDL_1/audiodsp.cpp:168 | two frames of 30000 at capacity 1 store 45000, outside the `int16_t` range |
| Stereo.WriteFrame | SDL_1/audiodsp.cpp:119-120 | one frame's two stores change exactly indices `i` and `i + 1` |
| Synth.Frames | SDL_1/audiodsp.cpp:250 | a `for (i = 0; i < numSamples; i += 2)` loop visits every sample index: `2n` covers `numSamples`, an odd count by one extra sample |
| Synth.AudioGlobals.constructor | SDL_1/audiodsp.cpp:195-213 | at program start the cursor is 0 and the table holds 32 entries of 10000 then 32 of -10000 |
| Synth.AudioGlobals.CreateSquareWave | SDL_1/audiodsp.cpp:243-266 | sets the rate to 8000 and returns 0; emits the table entries from the cursor on, wrapping at 64, on the left and silence on the right; advances the cursor by the frame count modulo 64; the table is not written |
| Synth.AudioGlobals.CreateSinWave | SDL_1/audiodsp.cpp:215-241 | sets the rate to 16000 and returns 0; emits the saturated sine value for each even index on the left and silence on the right; advances the cursor modulo 8 once per frame, so it stays a valid table index |
| Synth.SquareTableHalves | SDL_1/audiodsp.cpp:195-211 | entry `k` of the table is 10000 for `k < 32` and -10000 otherwise |
| Synth.SquareToneAt | SDL_1/audiodsp.cpp:252-262 | frame `f` is high exactly when the cursor, advanced `f` times, lies in the first half of the table: a 50% duty cycle with period 64 |
| Synth.SquareFromZero | SDL_1/audiodsp.cpp:195-211 | from cursor 0, 64 frames reproduce the table exactly |
| Synth.SquareContinues | SDL_1/audiodsp.cpp:213 | because the cursor persists, two consecutive buffers join into the buffer one call of their combined length would give |
| Wav.Le16RoundTrip | SDL_1/audiodsp.cpp:44-49 | a `uint16_t` written as two little-endian bytes reads back as itself |
| Wav.FromLe16RoundTrip | SDL_1/audiodsp.cpp:44-49 | every two bytes encode exactly one `uint16_t` |
| Wav.Le32RoundTrip | SDL_1/audiodsp.cpp:36 | a `uint32_t` written as four little-endian bytes reads back as itself |
| Wav.FromLe32RoundTrip | SDL_1/audiodsp.cpp:36 | every four bytes encode exactly one `uint32_t` |
| Wav.Signed32Wrap | SDL_1/audiodsp.cpp:46 | the `int` sample rate written as raw bytes reads back as itself, negative rates included |
| Wav.SampleRoundTrip | SDL_1/audiodsp.cpp:54 | one `int16_t` written as its two's-complement bytes reads back as itself |
| Wav.EncodeSamplesAt | SDL_1/audiodsp.cpp:54 | the memory image of the sample vector holds sample `k` at bytes `2k` and `2k + 1`, in two's complement, low byte first |
| Wav.DecodeEncode | SDL_1/audiodsp.cpp:54 | the memory image of a sample vector decodes to that vector |
| Wav.Supported | SDL_1/audiodsp.cpp:74 | a format passing the check has 2-byte samples and one or two channels |
| Wav.HeaderBytes | SDL_1/audiodsp.cpp:34-53 | the header is 44 bytes |
| Wav.HeaderFields | SDL_1/audiodsp.cpp:34-53 | the header is `RIFF`, size, `WAVE`, `fmt `, 16, 1, channels, rate, byte rate, frame size, bits, `data`, data size, in that order |
| Wav.HeaderOf | SDL_1/audiodsp.cpp:27-32 | every header field fits the width it is written with; the data size is `2 * (N mod 2^31)` after the `uint32_t` wrap |
| Wav.SmallSupportedHeader | SDL_1/audiodsp.cpp:27-32 | for a supported format with fewer than 2^31 - 18 samples: RIFF size `36 + 2N`, byte rate `freq * channels * 2`, frame `channels * 2`, 16 bits, data size `2N` |
| Wav.SaveWavBytes | SDL_1/audiodsp.cpp:19-58 | the file is `44 + 2 * (N mod 2^31)` bytes long |
| Wav.ParseWav | SDL_1/audiodsp.cpp:34-54 | a file that reads back has a representable header, is `44 + dataSize` bytes long and holds `dataSize / 2` samples |
| Wav.RiffRoundTrip | SDL_1/audiodsp.cpp:35-37 | the RIFF chunk written reads back as its size |
| Wav.FmtRoundTrip | SDL_1/audiodsp.cpp:40-49 | the `fmt ` chunk written (size 16, PCM tag 1) reads back as its format fields |
| Wav.DataRoundTrip | SDL_1/audiodsp.cpp:52-53 | the `data` chunk header written reads back as its size |
| Wav.ParseParts | SDL_1/audiodsp.cpp:34-54 | three chunks that parse, followed by as many samples as the `data` size announces, parse as a whole |
| Wav.ParseWritten | SDL_1/audiodsp.cpp:34-54 | any representable header followed by the samples it announces reads back as that header and those samples |
| Wav.SaveWavRoundTrip | SDL_1/audiodsp.cpp:19-58 | every written file reads back as the computed header and the first `N mod 2^31` samples |
| Wav.SizesExact | SDL_1/audiodsp.cpp:27-29 | below 2^31 - 18 samples nothing wraps: the data size is `2N`, the RIFF size is `36 + 2N` (the file length less 8), and every sample reads back |
| Wav.SupportedLayout | SDL_1/audiodsp.cpp:27-54 | a supported file is byte by byte: `RIFF`, `36 + 2N`, `WAVE`, `fmt `, 16, 1, channels, rate, `rate * channels * 2`, `channels * 2`, 16, `data`, `2N`, then the samples |
| Wav.SupportedHeader | SDL_1/audiodsp.cpp:30-32 | for a format passing the line-74 check, the header says 16 bits, a frame of `2 * channels` bytes and a byte rate of one frame per sample period |
| Wav.OtherFormatHeader | SDL_1/audiodsp.cpp:30-32 | any other format is described as 8-bit: one byte per sample in the frame size and the byte rate |
| Wav.CdStereoHeader | SDL_1/audiodsp.cpp:30-31 | 44.1 kHz 16-bit stereo gives a byte rate of 176400 and a frame of 4 bytes |

## Left out

- `main` and `sdlAudioSetup` (SDL initialisation, loading the file, the menu, playback, console I/O) are I/O and foreign calls. Only the format check on line 74 is kept, as `Wav.Supported`. `sdlAudioSetup` has no return on its success path, and `main` ignores its result, so the effects do not assume the check passed and handle every channel count.
- The console logging of the channel count and the `DEBUG_DSP` printing are left out: output only.
- Opening the output file, its failure path (`return false`) and closing it are file I/O. Only the bytes written are modelled.
- Effects.AudioEcho: requires `2 <= freq <= 2^24` when there are samples to process. A smaller rate gives capacity 0, and then `% 0` and the buffer index are undefined. Above 2^24, `0.5f * freq` is rounded in single precision and this is not modelled. A negative rate gives a negative vector length and is excluded.
- Effects.AudioEcho: requires an even sample count in stereo. The source reads and writes index `i + 1`, one past the end, for an odd count.
- Effects.AudioDelay: requires an even sample count in stereo, for the same reason.
- Effects.AudioDelay: requires in stereo that every unsaturated store fits `int16_t` (`DelayLine.StoresFit`). The conversion on line 168 is undefined behaviour otherwise. `DelayLine.LoudStoreOverflows` shows such inputs exist, and `DelayLine.HalfScaleStoresFit` gives a simple sufficient condition.
- Both effects are given the input as a sequence that they only read. That the input and output buffers might alias is not modelled.
- Synth.AudioGlobals.CreateSinWave: the left samples come from `10000 * sin(...)` in floating point. The model takes these values as a parameter `wave` and saturates them. The sine values themselves are not computed.
- Synth.AudioGlobals.CreateSquareWave: requires the output buffer to be distinct from the table array. In the source they are different objects.
- Both synthesizers ignore their input samples, so the model takes none.
- Wav.HeaderOf: the channel count is written from a one-byte field as two bytes. The second byte comes from the next field of SDL's audio format structure, which is not part of this model. It is taken to be zero.
- Wav.HeaderOf: the host is assumed little-endian, as the program writes raw memory.
- Wav.HeaderOf: requires a rate and a product `freq * channels * width` that fit `int`. The source's signed overflow there is undefined.
- `SDL_1/audiodsp.h` holds only declarations.
