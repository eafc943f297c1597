/** The byte image `saveWavFile` writes: a 44-byte RIFF WAVE header with a
    PCM `fmt ` chunk and a `data` chunk, followed by the samples, every
    multi-byte field little-endian (the host byte order the program assumes).
    The header's integer fields are computed in the C++ types the program
    declares, so the conversions to `uint32_t` and `uint16_t` are written out.
    A decoder reads the image back, and the round trip is proved. Also here:
    the format check that accepts 16-bit signed little-endian mono or stereo. */
module Wav {
  import opened Pcm
  import opened Cursor

  /** One byte of the file. */
  type byte = x: int | 0 <= x < 0x100

  const U16: int := 0x1_0000
  const U32: int := 0x1_0000_0000
  const I32Min: int := -0x8000_0000
  const I32Max: int := 0x7fff_ffff

  /** SDL's `AUDIO_S16LSB`: signed 16-bit samples, little-endian. */
  const AudioS16Lsb: int := 0x8010

  datatype Option<T> = None | Some(value: T)

  /** The fields of SDL's audio format that the program consults: the sample
      rate (an `int`), the sample format (a `Uint16`) and the channel count
      (a `Uint8`). */
  datatype AudioSpec = AudioSpec(freq: int, format: int, channels: int)

  /** The check the program applies to a loaded file: 16-bit signed
      little-endian samples, one or two channels. */
  predicate Supported(spec: AudioSpec)
    ensures Supported(spec) ==> Width(spec) == 2 && 1 <= spec.channels <= 2
  {
    spec.format == AudioS16Lsb && (spec.channels == 1 || spec.channels == 2)
  }

  // ---------------------------------------------------------------------
  // Little-endian fields

  /** The two bytes of a `uint16_t`, low byte first. */
  function Le16(v: int): (b: seq<byte>)
    requires 0 <= v < U16
    ensures |b| == 2
  {
    [v % 0x100, v / 0x100]
  }

  /** The four bytes of a `uint32_t`, low byte first. */
  function Le32(v: int): (b: seq<byte>)
    requires 0 <= v < U32
    ensures |b| == 4
  {
    [v % 0x100, (v / 0x100) % 0x100, (v / 0x1_0000) % 0x100, v / 0x100_0000]
  }

  function FromLe16(b: seq<byte>): (v: int)
    requires |b| == 2
    ensures 0 <= v < U16
  {
    b[0] as int + 0x100 * (b[1] as int)
  }

  function FromLe32(b: seq<byte>): (v: int)
    requires |b| == 4
    ensures 0 <= v < U32
  {
    b[0] as int + 0x100 * (b[1] as int) + 0x1_0000 * (b[2] as int) + 0x100_0000 * (b[3] as int)
  }

  /** Reading back the two bytes of a `uint16_t` gives the value written. */
  lemma Le16RoundTrip(v: int)
    requires 0 <= v < U16
    ensures FromLe16(Le16(v)) == v
  {
  }

  /** Every two bytes are the encoding of exactly one `uint16_t`. */
  lemma FromLe16RoundTrip(b: seq<byte>)
    requires |b| == 2
    ensures Le16(FromLe16(b)) == b
  {
  }

  /** Reading back the four bytes of a `uint32_t` gives the value written. */
  lemma Le32RoundTrip(v: int)
    requires 0 <= v < U32
    ensures FromLe32(Le32(v)) == v
  {
    var b := Le32(v);
    var q1, q2, q3 := v / 0x100, v / 0x1_0000, v / 0x100_0000;
    assert v == b[0] + 0x100 * q1;
    assert q1 == b[1] + 0x100 * (q1 / 0x100);
    assert q1 / 0x100 == q2;
    assert q2 == b[2] + 0x100 * (q2 / 0x100);
    assert q2 / 0x100 == q3;
  }

  /** Every four bytes are the encoding of exactly one `uint32_t`. */
  lemma FromLe32RoundTrip(b: seq<byte>)
    requires |b| == 4
    ensures Le32(FromLe32(b)) == b
  {
    var v := FromLe32(b);
    var e := Le32(v);
    assert v == b[0] as int + 0x100 * (b[1] as int + 0x100 * (b[2] as int + 0x100 * (b[3] as int)));
    assert v / 0x100 == b[1] as int + 0x100 * (b[2] as int + 0x100 * (b[3] as int));
    assert v / 0x1_0000 == (v / 0x100) / 0x100 == b[2] as int + 0x100 * (b[3] as int);
    assert v / 0x100_0000 == (v / 0x1_0000) / 0x100 == b[3];
    assert e[0] == b[0] && e[1] == b[1] && e[2] == b[2] && e[3] == b[3];
  }

  // ---------------------------------------------------------------------
  // Integer conversions

  /** Conversion of an integer to `uint32_t`: reduction modulo 2^32. */
  function Wrap32(v: int): (r: int)
    ensures 0 <= r < U32
    ensures 0 <= v < U32 ==> r == v
  {
    v % U32
  }

  /** The `int` whose bytes, read as a `uint32_t`, are `u` (two's complement). */
  function Signed32(u: int): (v: int)
    requires 0 <= u < U32
    ensures I32Min <= v <= I32Max
  {
    if u <= I32Max then u else u - U32
  }

  /** Every `int` survives being written as four raw bytes and read back. */
  lemma Signed32Wrap(v: int)
    requires I32Min <= v <= I32Max
    ensures Signed32(Wrap32(v)) == v
  {
    if v < 0 {
      assert Wrap32(v) == v + U32;
    }
  }

  /** The two bytes of an `int16_t`: its two's-complement bit pattern, low
      byte first. */
  function SampleBytes(s: int16): (b: seq<byte>)
    ensures |b| == 2
  {
    Le16(if s < 0 then s + U16 else s)
  }

  function SampleOf(b: seq<byte>): (s: int16)
    requires |b| == 2
  {
    var u := FromLe16(b);
    if u < 0x8000 then u else u - U16
  }

  /** The memory image of the sample vector: `|s|` samples of two bytes. */
  function EncodeSamples(s: seq<int16>): (b: seq<byte>)
    ensures |b| == 2 * |s|
  {
    if |s| == 0 then [] else SampleBytes(s[0]) + EncodeSamples(s[1..])
  }

  function DecodeSamples(b: seq<byte>): (s: seq<int16>)
    requires |b| % 2 == 0
    ensures 2 * |s| == |b|
  {
    if |b| == 0 then [] else [SampleOf(b[..2])] + DecodeSamples(b[2..])
  }

  /** The memory image places sample `k` at bytes `2k` and `2k + 1`. */
  lemma {:induction false} EncodeSamplesAt(s: seq<int16>, k: nat)
    requires k < |s|
    ensures EncodeSamples(s)[2 * k..2 * k + 2] == SampleBytes(s[k])
    decreases k
  {
    var b := EncodeSamples(s);
    if k > 0 {
      EncodeSamplesAt(s[1..], k - 1);
      assert b[2 * k..2 * k + 2] == EncodeSamples(s[1..])[2 * (k - 1)..2 * (k - 1) + 2];
    }
  }

  /** Every sample survives being written as two bytes and read back. */
  lemma SampleRoundTrip(s: int16)
    ensures SampleOf(SampleBytes(s)) == s
  {
    Le16RoundTrip(if s < 0 then s + U16 else s);
  }

  /** Decoding the image of a sample sequence gives the sequence back. */
  lemma {:induction false} DecodeEncode(s: seq<int16>)
    ensures DecodeSamples(EncodeSamples(s)) == s
  {
    if |s| > 0 {
      var b := EncodeSamples(s);
      assert b[..2] == SampleBytes(s[0]);
      assert b[2..] == EncodeSamples(s[1..]);
      SampleRoundTrip(s[0]);
      DecodeEncode(s[1..]);
      assert s == [s[0]] + s[1..];
    }
  }

  // ---------------------------------------------------------------------
  // The header

  /** The body of the PCM `fmt ` chunk as the program writes it: channel
      count, sample rate (an `int`), byte rate, block alignment and bits per
      sample. */
  datatype PcmFormat = PcmFormat(
    channels: int, freq: int, byteRate: int, blockAlign: int, bitsPerSample: int)

  /** The fields of the 44-byte header: the RIFF size, the `fmt ` chunk and
      the size of the `data` chunk. */
  datatype WavHeader = WavHeader(fileSize: int, format: PcmFormat, dataSize: int)

  /** Format fields that fit the widths they are written with. */
  predicate FormatFits(f: PcmFormat)
  {
    0 <= f.channels < U16 && I32Min <= f.freq <= I32Max && 0 <= f.byteRate < U32 &&
    0 <= f.blockAlign < U16 && 0 <= f.bitsPerSample < U16
  }

  /** Header fields that fit the widths they are written with. */
  predicate Representable(h: WavHeader)
  {
    0 <= h.fileSize < U32 && FormatFits(h.format) && 0 <= h.dataSize < U32
  }

  /** The bytes per sample the program assumes: 2 for `AUDIO_S16LSB`, 1 for
      anything else. */
  function Width(spec: AudioSpec): (m: nat)
    ensures m == 1 || m == 2
  {
    if spec.format == AudioS16Lsb then 2 else 1
  }

  /** What the program needs of the format to compute the header without
      undefined behaviour: a sample rate that is an `int`, a `Uint8` channel
      count, and a product `freq * channels * width` that does not overflow
      `int`. */
  predicate Writable(spec: AudioSpec)
  {
    I32Min <= spec.freq <= I32Max && 0 <= spec.channels < 0x100 &&
    I32Min <= spec.freq * spec.channels * Width(spec) <= I32Max
  }

  /** The header computed for `n` samples: the sample count is taken as a
      `uint32_t`, the data and file sizes are `uint32_t` arithmetic, the byte
      rate is an `int` product converted to `uint32_t`, and the block
      alignment and sample width are `uint16_t`. */
  function HeaderOf(spec: AudioSpec, n: nat): (h: WavHeader)
    requires Writable(spec)
    ensures Representable(h)
    ensures h.dataSize == 2 * (n % 0x8000_0000)
  {
    var m := Width(spec);
    var numSamples := n % U32;
    var dataSize := Wrap32(numSamples * 2);
    HalfRange(n);
    assert 0 <= spec.channels * m < U16 by {
      assert m == 1 || m == 2;
    }
    WavHeader(
      Wrap32(36 + dataSize),
      PcmFormat(spec.channels, spec.freq, Wrap32(spec.freq * spec.channels * m),
                spec.channels * m, if m == 2 then 16 else 8),
      dataSize)
  }

  /** `uint32_t` doubling of the count `n % 2^32` keeps its low 31 bits. */
  lemma HalfRange(n: nat)
    ensures Wrap32((n % U32) * 2) == 2 * (n % 0x8000_0000)
  {
    var k := n % U32;
    if k < 0x8000_0000 {
      assert n % 0x8000_0000 == k by { ModOfMod(n, 0x8000_0000, 2); }
    } else {
      assert n % 0x8000_0000 == k - 0x8000_0000 by { ModOfMod(n, 0x8000_0000, 2); }
    }
  }

  /** Reducing modulo `m * q` and then modulo `m` is reducing modulo `m`. */
  lemma ModOfMod(n: nat, m: nat, q: nat)
    requires 0 < m && 0 < q
    ensures (n % (m * q)) % m == n % m
  {
    var a, r := n / (m * q), n % (m * q);
    DivMod(n, m * q);
    DivMod(r, m);
    assert n == (q * a + r / m) * m + r % m;
    ModUnique(n, q * a + r / m, r % m, m);
  }

  const Riff: seq<byte> := [0x52, 0x49, 0x46, 0x46]  // "RIFF"
  const Wave: seq<byte> := [0x57, 0x41, 0x56, 0x45]  // "WAVE"
  const Fmt: seq<byte> := [0x66, 0x6d, 0x74, 0x20]   // "fmt "
  const Data: seq<byte> := [0x64, 0x61, 0x74, 0x61]  // "data"

  /** Size of the PCM `fmt ` chunk's body, and the PCM format tag. */
  const FmtSize: int := 16
  const FormatPcm: int := 1

  /** The first 12 bytes: `RIFF`, the RIFF size, `WAVE`. */
  function RiffBytes(fileSize: int): (b: seq<byte>)
    requires 0 <= fileSize < U32
    ensures |b| == 12
  {
    Riff + Le32(fileSize) + Wave
  }

  /** The next 24 bytes: `fmt `, its size 16, the PCM tag 1 and the format. */
  function FmtBytes(f: PcmFormat): (b: seq<byte>)
    requires FormatFits(f)
    ensures |b| == 24
  {
    Fmt + Le32(FmtSize) + Le16(FormatPcm) + Le16(f.channels) + Le32(Wrap32(f.freq)) +
    Le32(f.byteRate) + Le16(f.blockAlign) + Le16(f.bitsPerSample)
  }

  /** The last 8 header bytes: `data` and the data size. */
  function DataBytes(dataSize: int): (b: seq<byte>)
    requires 0 <= dataSize < U32
    ensures |b| == 8
  {
    Data + Le32(dataSize)
  }

  /** The 44 header bytes in the order the program writes them. */
  function HeaderBytes(h: WavHeader): (b: seq<byte>)
    requires Representable(h)
    ensures |b| == 44
  {
    RiffBytes(h.fileSize) + FmtBytes(h.format) + DataBytes(h.dataSize)
  }

  /** The whole file: the header, then the first `dataSize / 2` samples (all
      of them unless the `uint32_t` data size wrapped). */
  function SaveWavBytes(samples: seq<int16>, spec: AudioSpec): (b: seq<byte>)
    requires Writable(spec)
    ensures |b| == 44 + 2 * (|samples| % 0x8000_0000)
  {
    var h := HeaderOf(spec, |samples|);
    HeaderBytes(h) + EncodeSamples(samples[..|samples| % 0x8000_0000])
  }

  // ---------------------------------------------------------------------
  // Reading a file back

  datatype WavFile = WavFile(header: WavHeader, samples: seq<int16>)

  /** The RIFF size, if the 12 bytes carry the `RIFF` and `WAVE` tags. */
  function ParseRiff(b: seq<byte>): (r: Option<int>)
    requires |b| == 12
    ensures r.Some? ==> 0 <= r.value < U32
  {
    if b[..4] == Riff && b[8..] == Wave then Some(FromLe32(b[4..8])) else None
  }

  /** The format, if the 24 bytes are a PCM `fmt ` chunk of size 16. */
  function ParseFmt(b: seq<byte>): (r: Option<PcmFormat>)
    requires |b| == 24
    ensures r.Some? ==> FormatFits(r.value)
  {
    if b[..4] == Fmt && FromLe32(b[4..8]) == FmtSize && FromLe16(b[8..10]) == FormatPcm then
      Some(PcmFormat(FromLe16(b[10..12]), Signed32(FromLe32(b[12..16])), FromLe32(b[16..20]),
                     FromLe16(b[20..22]), FromLe16(b[22..24])))
    else None
  }

  /** The data size, if the 8 bytes carry the `data` tag. */
  function ParseData(b: seq<byte>): (r: Option<int>)
    requires |b| == 8
    ensures r.Some? ==> 0 <= r.value < U32
  {
    if b[..4] == Data then Some(FromLe32(b[4..])) else None
  }

  /** Reads a 44-byte PCM header and the samples that follow. Fails unless
      the tags, the `fmt ` size 16 and the PCM tag 1 are present and the data
      size is even and matches the bytes that remain. */
  function ParseWav(b: seq<byte>): (r: Option<WavFile>)
    ensures r.Some? ==> |b| == 44 + r.value.header.dataSize
    ensures r.Some? ==> 2 * |r.value.samples| == r.value.header.dataSize
    ensures r.Some? ==> Representable(r.value.header)
  {
    if |b| < 44 then None
    else
      var riff, fmt, data := ParseRiff(b[..12]), ParseFmt(b[12..36]), ParseData(b[36..44]);
      if riff.None? || fmt.None? || data.None? then None
      else if |b| != 44 + data.value || data.value % 2 != 0 then None
      else Some(WavFile(WavHeader(riff.value, fmt.value, data.value), DecodeSamples(b[44..])))
  }

  lemma RiffRoundTrip(fileSize: int)
    requires 0 <= fileSize < U32
    ensures ParseRiff(RiffBytes(fileSize)) == Some(fileSize)
  {
    var b := RiffBytes(fileSize);
    assert b[..4] == Riff && b[4..8] == Le32(fileSize) && b[8..] == Wave;
    Le32RoundTrip(fileSize);
  }

  lemma FmtRoundTrip(f: PcmFormat)
    requires FormatFits(f)
    ensures ParseFmt(FmtBytes(f)) == Some(f)
  {
    var b := FmtBytes(f);
    assert b[..4] == Fmt;
    assert b[4..8] == Le32(FmtSize);
    assert b[8..10] == Le16(FormatPcm);
    assert b[10..12] == Le16(f.channels);
    assert b[12..16] == Le32(Wrap32(f.freq));
    assert b[16..20] == Le32(f.byteRate);
    assert b[20..22] == Le16(f.blockAlign);
    assert b[22..24] == Le16(f.bitsPerSample);
    Le32RoundTrip(FmtSize);
    Le16RoundTrip(FormatPcm);
    Le16RoundTrip(f.channels);
    Le32RoundTrip(Wrap32(f.freq));
    Signed32Wrap(f.freq);
    Le32RoundTrip(f.byteRate);
    Le16RoundTrip(f.blockAlign);
    Le16RoundTrip(f.bitsPerSample);
  }

  lemma DataRoundTrip(dataSize: int)
    requires 0 <= dataSize < U32
    ensures ParseData(DataBytes(dataSize)) == Some(dataSize)
  {
    var b := DataBytes(dataSize);
    assert b[..4] == Data && b[4..] == Le32(dataSize);
    Le32RoundTrip(dataSize);
  }

  /** Three header chunks that parse, followed by the image of as many
      samples as the `data` chunk announces, parse as a whole. */
  lemma ParseParts(a: seq<byte>, m: seq<byte>, d: seq<byte>, written: seq<int16>,
                   fileSize: int, f: PcmFormat, dataSize: int)
    requires |a| == 12 && |m| == 24 && |d| == 8 && dataSize == 2 * |written|
    requires ParseRiff(a) == Some(fileSize) && ParseFmt(m) == Some(f) && ParseData(d) == Some(dataSize)
    ensures ParseWav(a + m + d + EncodeSamples(written)) == Some(WavFile(WavHeader(fileSize, f, dataSize), written))
  {
    var b := a + m + d + EncodeSamples(written);
    Pieces(a, m, d, EncodeSamples(written));
    DecodeEncode(written);
    ModUnique(dataSize, |written|, 0, 2);
  }

  /** A header followed by the image of as many samples as it announces
      reads back as that header and those samples. */
  lemma ParseWritten(h: WavHeader, written: seq<int16>)
    requires Representable(h) && h.dataSize == 2 * |written|
    ensures ParseWav(HeaderBytes(h) + EncodeSamples(written)) == Some(WavFile(h, written))
  {
    RiffRoundTrip(h.fileSize);
    FmtRoundTrip(h.format);
    DataRoundTrip(h.dataSize);
    ParseParts(RiffBytes(h.fileSize), FmtBytes(h.format), DataBytes(h.dataSize), written,
               h.fileSize, h.format, h.dataSize);
  }

  /** Each piece of a four-piece concatenation is recovered by slicing. */
  lemma Pieces<T>(a: seq<T>, m: seq<T>, d: seq<T>, e: seq<T>)
    ensures (a + m + d + e)[..|a|] == a
    ensures (a + m + d + e)[|a|..|a| + |m|] == m
    ensures (a + m + d + e)[|a| + |m|..|a| + |m| + |d|] == d
    ensures (a + m + d + e)[|a| + |m| + |d|..] == e
  {
    var b := a + m + d + e;
    assert b == a + (m + (d + e));
    assert b[|a|..] == m + (d + e);
    assert b[|a| + |m|..] == d + e;
  }

  /** Reading back a written file gives the header the program computed and
      the samples it wrote. */
  lemma SaveWavRoundTrip(samples: seq<int16>, spec: AudioSpec)
    requires Writable(spec)
    ensures ParseWav(SaveWavBytes(samples, spec))
         == Some(WavFile(HeaderOf(spec, |samples|), samples[..|samples| % 0x8000_0000]))
  {
    ParseWritten(HeaderOf(spec, |samples|), samples[..|samples| % 0x8000_0000]);
  }

  /** Below 2^31 - 18 samples no size wraps: every sample is written, the
      data chunk holds `2N` bytes, and the RIFF size is the file length less
      the 8 bytes of the RIFF tag and size field. */
  lemma SizesExact(samples: seq<int16>, spec: AudioSpec)
    requires Writable(spec) && |samples| < 0x8000_0000 - 18
    ensures HeaderOf(spec, |samples|).dataSize == 2 * |samples|
    ensures HeaderOf(spec, |samples|).fileSize == 36 + 2 * |samples| == |SaveWavBytes(samples, spec)| - 8
    ensures ParseWav(SaveWavBytes(samples, spec)).Some?
    ensures ParseWav(SaveWavBytes(samples, spec)).value.samples == samples
  {
    var k := |samples| % 0x8000_0000;
    assert k == |samples| by { ModUnique(|samples|, 0, |samples|, 0x8000_0000); }
    assert samples[..k] == samples;
    SaveWavRoundTrip(samples, spec);
  }

  /** The file written for a supported format, field by field: `RIFF`, the
      size `36 + 2N`, `WAVE`; `fmt `, 16, PCM, the channel count, the rate,
      the byte rate `freq * channels * 2`, the frame size `channels * 2` and
      16 bits; `data`, the size `2N`; then the `N` samples. */
  lemma SupportedLayout(samples: seq<int16>, spec: AudioSpec)
    requires Writable(spec) && Supported(spec) && 0 <= spec.freq && |samples| < 0x8000_0000 - 18
    ensures SaveWavBytes(samples, spec)
         == (Riff + Le32(36 + 2 * |samples|) + Wave)
          + (Fmt + Le32(16) + Le16(1) + Le16(spec.channels) + Le32(spec.freq)
             + Le32(spec.freq * spec.channels * 2) + Le16(spec.channels * 2) + Le16(16))
          + (Data + Le32(2 * |samples|))
          + EncodeSamples(samples)
  {
    var k := |samples| % 0x8000_0000;
    assert k == |samples| by { ModUnique(|samples|, 0, |samples|, 0x8000_0000); }
    assert samples[..k] == samples;
    SmallSupportedHeader(spec, |samples|);
    var h := HeaderOf(spec, |samples|);
    assert SaveWavBytes(samples, spec) == HeaderBytes(h) + EncodeSamples(samples);
    HeaderFields(h, samples, 36 + 2 * |samples|, spec.channels, spec.freq,
                 spec.freq * spec.channels * 2, spec.channels * 2, 16, 2 * |samples|);
  }

  /** The header bytes, field by field. */
  lemma HeaderFields(h: WavHeader, s: seq<int16>, fileSize: int, channels: int, freq: int,
                     byteRate: int, blockAlign: int, bits: int, dataSize: int)
    requires Representable(h) && 0 <= freq
    requires h == WavHeader(fileSize, PcmFormat(channels, freq, byteRate, blockAlign, bits), dataSize)
    ensures HeaderBytes(h) + EncodeSamples(s)
         == (Riff + Le32(fileSize) + Wave)
          + (Fmt + Le32(16) + Le16(1) + Le16(channels) + Le32(freq)
             + Le32(byteRate) + Le16(blockAlign) + Le16(bits))
          + (Data + Le32(dataSize))
          + EncodeSamples(s)
  {
  }

  lemma SmallSupportedHeader(spec: AudioSpec, n: nat)
    requires Writable(spec) && Supported(spec) && 0 <= spec.freq && n < 0x8000_0000 - 18
    ensures HeaderOf(spec, n)
         == WavHeader(36 + 2 * n,
                      PcmFormat(spec.channels, spec.freq, spec.freq * spec.channels * 2, spec.channels * 2, 16),
                      2 * n)
  {
    assert n % 0x8000_0000 == n by { ModUnique(n, 0, n, 0x8000_0000); }
  }

  /** For a supported format at a non-negative rate the header describes
      16-bit PCM: two bytes per sample, a frame of `channels * 2` bytes, and
      a byte rate of one frame per sample period. */
  lemma SupportedHeader(spec: AudioSpec, n: nat)
    requires Writable(spec) && Supported(spec) && 0 <= spec.freq
    ensures HeaderOf(spec, n).format.bitsPerSample == 16
    ensures HeaderOf(spec, n).format.blockAlign == 2 * spec.channels
    ensures HeaderOf(spec, n).format.byteRate == spec.freq * HeaderOf(spec, n).format.blockAlign
    ensures HeaderOf(spec, n).format.channels == spec.channels
    ensures HeaderOf(spec, n).format.freq == spec.freq
  {
  }

  /** A format other than `AUDIO_S16LSB` is written as 8-bit samples: one
      byte per sample in the block alignment and the byte rate. */
  lemma OtherFormatHeader(spec: AudioSpec, n: nat)
    requires Writable(spec) && spec.format != AudioS16Lsb && 0 <= spec.freq
    ensures HeaderOf(spec, n).format.bitsPerSample == 8
    ensures HeaderOf(spec, n).format.blockAlign == spec.channels
    ensures HeaderOf(spec, n).format.byteRate == spec.freq * spec.channels
  {
  }

  /** A 44.1 kHz stereo file: 176400 bytes per second in frames of 4 bytes. */
  lemma CdStereoHeader(n: nat)
    ensures Writable(AudioSpec(44100, AudioS16Lsb, 2))
    ensures HeaderOf(AudioSpec(44100, AudioS16Lsb, 2), n).format.byteRate == 176400
    ensures HeaderOf(AudioSpec(44100, AudioS16Lsb, 2), n).format.blockAlign == 4
  {
  }
}
