/** Interleaved stereo buffers: frame `f` holds the left sample at index
    `2 * f` and the right one at `2 * f + 1`. */
module Stereo {
  import opened Pcm

  /** The left channel of an interleaved stereo buffer: the samples at even indices. */
  function Left(x: seq<int16>): (l: seq<int16>)
    ensures |l| == |x| / 2
  {
    seq(|x| / 2, f requires 0 <= f < |x| / 2 => x[2 * f])
  }

  /** The right channel of an interleaved stereo buffer: the samples at odd indices. */
  function Right(x: seq<int16>): (r: seq<int16>)
    ensures |r| == |x| / 2
  {
    seq(|x| / 2, f requires 0 <= f < |x| / 2 => x[2 * f + 1])
  }

  /** Two channels of equal length as one interleaved buffer. */
  function Interleave(l: seq<int16>, r: seq<int16>): (x: seq<int16>)
    requires |l| == |r|
    ensures |x| == 2 * |l|
  {
    seq(2 * |l|, k requires 0 <= k < 2 * |l| => if k % 2 == 0 then l[k / 2] else r[k / 2])
  }

  /** Frame `f` of an interleaved buffer is the left sample, then the right one. */
  lemma InterleaveAt(l: seq<int16>, r: seq<int16>, f: nat)
    requires |l| == |r| && f < |l|
    ensures Interleave(l, r)[2 * f] == l[f] && Interleave(l, r)[2 * f + 1] == r[f]
  {
    assert (2 * f) % 2 == 0 && (2 * f) / 2 == f;
    assert (2 * f + 1) % 2 == 1 && (2 * f + 1) / 2 == f;
  }

  /** Interleaving one more frame appends its two samples. */
  lemma InterleaveSnoc(l: seq<int16>, r: seq<int16>, f: nat)
    requires |l| == |r| && f < |l|
    ensures Interleave(l[..f + 1], r[..f + 1]) == Interleave(l[..f], r[..f]) + [l[f], r[f]]
  {
    var a, b := Interleave(l[..f + 1], r[..f + 1]), Interleave(l[..f], r[..f]) + [l[f], r[f]];
    forall k | 0 <= k < |a|
      ensures a[k] == b[k]
    {
      var g := k / 2;
      InterleaveAt(l[..f + 1], r[..f + 1], g);
      if g < f {
        InterleaveAt(l[..f], r[..f], g);
      }
      assert k == 2 * g || k == 2 * g + 1;
    }
  }

  /** Interleaving is compatible with concatenation: two buffers written
      one after the other are the interleaving of the joined channels. */
  lemma InterleaveAppend(l1: seq<int16>, r1: seq<int16>, l2: seq<int16>, r2: seq<int16>)
    requires |l1| == |r1| && |l2| == |r2|
    ensures Interleave(l1, r1) + Interleave(l2, r2) == Interleave(l1 + l2, r1 + r2)
  {
    var a, b := Interleave(l1, r1) + Interleave(l2, r2), Interleave(l1 + l2, r1 + r2);
    forall k | 0 <= k < |b|
      ensures a[k] == b[k]
    {
      var g := k / 2;
      assert k == 2 * g || k == 2 * g + 1;
      InterleaveAt(l1 + l2, r1 + r2, g);
      if g < |l1| {
        InterleaveAt(l1, r1, g);
      } else {
        InterleaveAt(l2, r2, g - |l1|);
        assert k - 2 * |l1| == 2 * (g - |l1|) || k - 2 * |l1| == 2 * (g - |l1|) + 1;
      }
    }
  }

  /** Frame `f` of a stereo buffer holds the left sample at `2 * f` and the
      right one at `2 * f + 1`. */
  lemma LeftRightAt(x: seq<int16>, f: nat)
    requires f < |x| / 2
    ensures 2 * f + 1 < |x| && Left(x)[f] == x[2 * f] && Right(x)[f] == x[2 * f + 1]
  {
  }

  /** Stores one frame, left sample at index `i` and right sample at
      `i + 1`, as the stereo loops do. */
  method WriteFrame(out: array<int16>, i: nat, left: int16, right: int16)
    requires i + 1 < out.Length
    modifies out
    ensures out[..] == old(out[..])[i := left][i + 1 := right]
  {
    out[i] := left;
    out[i + 1] := right;
  }

  /** The buffer `now` holds the first `f` frames of `l` and `r`, and past
      them the samples of `base`. */
  ghost predicate FramesDone(now: seq<int16>, base: seq<int16>, l: seq<int16>, r: seq<int16>, f: nat)
  {
    |l| == |r| && f <= |l| && 2 * f <= |now| == |base| &&
    now[..2 * f] == Interleave(l[..f], r[..f]) && now[2 * f..] == base[2 * f..]
  }

  /** Writing frame `f` at indices `2f` and `2f + 1` extends the interleaved
      prefix by one frame and leaves the rest of the buffer as it was. */
  lemma StereoStep(before: seq<int16>, now: seq<int16>, base: seq<int16>,
                   l: seq<int16>, r: seq<int16>, f: nat)
    requires FramesDone(before, base, l, r, f) && f < |l| && 2 * f + 1 < |before|
    requires now == before[2 * f := l[f]][2 * f + 1 := r[f]]
    ensures FramesDone(now, base, l, r, f + 1)
  {
    var i := 2 * f;
    InterleaveSnoc(l, r, f);
    assert now[..i + 2] == before[..i] + [l[f], r[f]];
    assert now[i + 2..] == before[i..][2..];
  }

  /** Once every frame is written, the buffer is the interleaving followed
      by the untouched rest of `base`. */
  lemma AllFramesDone(now: seq<int16>, base: seq<int16>, l: seq<int16>, r: seq<int16>)
    requires FramesDone(now, base, l, r, |l|)
    ensures now == Interleave(l, r) + base[2 * |l|..]
  {
    assert l[..|l|] == l && r[..|r|] == r;
    assert now == now[..2 * |l|] + now[2 * |l|..];
  }
}
