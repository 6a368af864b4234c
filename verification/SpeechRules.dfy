/** What a finished speech unit contains, sample by sample, without naming how it is made. */
module SpeechRules {
  import opened SpeechPcm

  /** `r` is the quotient n/d rounded to the nearest integer, and to the even one of two equally near. */
  predicate Nearest(r: int, n: int, d: nat) {
    var gap := 2 * Abs(r * d - n);
    gap < d || (gap == d && r % 2 == 0)
  }

  lemma RoundedIsNearest(n: int, d: nat)
    requires d > 0
    ensures Nearest(Rounded(n, d), n, d)
  {
    var q, r := n / d, n % d;
    assert n == q * d + r;
    assert (q + 1) * d == q * d + d;
  }

  /** Nothing else is as near. */
  lemma NearestIsRounded(r: int, n: int, d: nat)
    requires d > 0 && Nearest(r, n, d)
    ensures r == Rounded(n, d)
  {
    var s := Rounded(n, d);
    RoundedIsNearest(n, d);
    hide Rounded;
    var a, b := r * d - n, s * d - n;
    assert (r - s) * d == r * d - s * d;
    Close(r - s, d, a, b);
  }

  /** Two integers that are both within half of a quotient are equal, or neighbours exactly half away. */
  lemma Close(k: int, d: nat, a: int, b: int)
    requires d > 0 && k * d == a - b && 2 * Abs(a) <= d && 2 * Abs(b) <= d
    ensures k == 0 || (Abs(k) == 1 && 2 * Abs(a) == d == 2 * Abs(b))
  {
    Apart(k, d);
    Apart(-k, d);
    assert (-k) * d == b - a;
  }

  lemma Apart(k: int, d: nat)
    requires d > 0
    ensures k >= 1 ==> k * d >= d
    ensures k >= 2 ==> k * d >= 2 * d
  {}

  /** The two bytes at `at` are the little-endian signed 16-bit sample `v`. */
  predicate Holds(pcm: Pcm, at: nat, v: int) {
    && at + 1 < |pcm| && -32768 <= v < 32768
    && (pcm[at] + 256 * pcm[at + 1] - v) % 65536 == 0
  }

  lemma HoldsIff(pcm: Pcm, at: nat, v: int)
    requires at + 1 < |pcm|
    ensures Holds(pcm, at, v) <==> v == Sample(pcm[at], pcm[at + 1])
  {}

  // -------------------------------------------------------------------------
  // The samples of a finished unit
  // -------------------------------------------------------------------------

  /** Where a channel of a frame starts. */
  function Offset(frame: nat, channel: nat, channels: nat): nat {
    Bytes(frame, 2 * channels) + 2 * channel
  }

  /** The sample at `to` in `out` is the one at `from` in `pcm` times num/den. */
  ghost predicate ScaledFrom(out: Pcm, to: nat, pcm: Pcm, from: nat, num: nat, den: nat) {
    exists v, w :: Holds(pcm, from, v) && Holds(out, to, w) && Nearest(w, v * num, den)
  }

  /**
   * One sample of a finished unit of `total` frames, of which the last `fade` are faded: unchanged before them, and
   * in them scaled by how many frames follow.
   */
  ghost predicate FadesAt(out: Pcm, pcm: Pcm, total: nat, channels: nat, fade: nat, frame: nat, channel: nat) {
    var at := Offset(frame, channel, channels);
    && at + 2 <= |pcm| && at + 2 <= |out|
    && frame < total
    && if frame + fade < total then out[at..at + 2] == pcm[at..at + 2]
       else ScaledFrom(out, at, pcm, at, total - 1 - frame, fade)
  }

  /** The finished unit: every sample as it fades, then so many frames of silence. */
  ghost predicate FinishedAs(out: Pcm, pcm: Pcm, total: nat, channels: nat, fade: nat, silence: nat) {
    && |out| == |pcm| + Bytes(silence, 2 * channels)
    && (forall frame, channel :: 0 <= frame < total && 0 <= channel < channels ==>
          FadesAt(out, pcm, total, channels, fade, frame, channel))
    && (forall i :: |pcm| <= i < |out| ==> out[i] == 0)
  }

  lemma ScaledIs(low: Byte, high: Byte, num: nat, den: nat, pcm: Pcm, from: nat, out: Pcm, to: nat)
    requires num <= den && den > 0
    requires from + 1 < |pcm| && pcm[from] == low && pcm[from + 1] == high
    requires to + 1 < |out| && out[to..to + 2] == Scaled(low, high, num, den)
    ensures ScaledFrom(out, to, pcm, from, num, den)
  {
    var v := Sample(low, high);
    var w := Rounded(v * num, den);
    ScaledFits(v, num, den);
    RoundedIsNearest(v * num, den);
    var bytes := Encoded(w);
    assert out[to] == out[to..to + 2][0] == bytes[0] && out[to + 1] == out[to..to + 2][1] == bytes[1];
    HoldsIff(pcm, from, v);
    HoldsIff(out, to, w);
  }

  lemma {:induction false} FrameAt(frame: Pcm, num: nat, den: nat, channel: nat)
    requires |frame| % 2 == 0 && num <= den && den > 0 && 2 * channel + 2 <= |frame|
    ensures FadedFrame(frame, num, den)[2 * channel..2 * channel + 2]
            == Scaled(frame[2 * channel], frame[2 * channel + 1], num, den)
    decreases |frame|
  {
    hide Scaled;
    var rest := FadedFrame(frame[2..], num, den);
    assert FadedFrame(frame, num, den) == Scaled(frame[0], frame[1], num, den) + rest;
    if channel > 0 {
      FrameAt(frame[2..], num, den, channel - 1);
      assert FadedFrame(frame, num, den)[2 * channel..2 * channel + 2] == rest[2 * channel - 2..2 * channel];
    }
  }

  /** One sample of a faded tail of `left` frames. */
  lemma {:induction false} TailAt(tail: Pcm, channels: nat, left: nat, fade: nat, frame: nat, channel: nat)
    requires channels > 0 && frame < left <= fade && channel < channels && |tail| == Bytes(left, 2 * channels)
    ensures Offset(frame, channel, channels) + 2 <= |tail|
    ensures var at := Offset(frame, channel, channels);
            FadedTail(tail, 2 * channels, left, fade)[at..at + 2] == Scaled(tail[at], tail[at + 1], left - 1 - frame, fade)
    decreases left
  {
    hide Scaled, FadedFrame, Bytes;
    var size := 2 * channels;
    BytesStep(left - 1, size);
    BytesStep(0, size);
    var first, rest := FadedFrame(tail[..size], left - 1, fade), FadedTail(tail[size..], size, left - 1, fade);
    assert FadedTail(tail, size, left, fade) == first + rest;
    var at := Offset(frame, channel, channels);
    if frame == 0 {
      FrameAt(tail[..size], left - 1, fade, channel);
      assert (first + rest)[at..at + 2] == first[at..at + 2];
    } else {
      BytesStep(frame - 1, size);
      TailAt(tail[size..], channels, left - 1, fade, frame - 1, channel);
      Behind(first, rest, at);
    }
  }

  lemma Behind(a: Pcm, b: Pcm, at: nat)
    requires |a| <= at && at + 2 <= |a| + |b|
    ensures (a + b)[at..at + 2] == b[at - |a|..at - |a| + 2]
  {}

  lemma FadeIs(pcm: Pcm, rate: nat, channels: nat, fadeMs: nat, total: nat, wanted: nat)
    requires channels > 0 && |pcm| == Bytes(total, 2 * channels) && Nearest(wanted, rate * fadeMs, 1_000)
    ensures Aligned(pcm, channels)
    ensures FadeFrames(pcm, rate, channels, fadeMs) == if wanted < total then wanted else total
  {
    NearestIsRounded(wanted, rate * fadeMs, 1_000);
    assert Aligned(pcm, channels) && FrameCount(pcm, channels) == total by {
      Whole(total, 2 * channels);
    }
  }

  lemma Whole(n: nat, d: nat)
    requires d > 0
    ensures Bytes(n, d) % d == 0 && Bytes(n, d) / d == n
  {
    var q, r := Bytes(n, d) / d, Bytes(n, d) % d;
    assert n * d == q * d + r;
    assert (n - q) * d == r;
    Apart(n - q, d);
    Apart(q - n, d);
    assert (q - n) * d == -r;
  }

  lemma FrameFits(frame: nat, total: nat, channel: nat, channels: nat)
    requires frame < total && channel < channels
    ensures Offset(frame, channel, channels) + 2 <= Bytes(frame + 1, 2 * channels) <= Bytes(total, 2 * channels)
  {
    BytesStep(frame, 2 * channels);
    BytesSum(frame + 1, total - frame - 1, 2 * channels);
  }

  /** One sample of the unit with its release fade. */
  lemma ReleasedAt(pcm: Pcm, rate: nat, channels: nat, fadeMs: nat, total: nat, wanted: nat, frame: nat, channel: nat)
    requires channels > 0 && |pcm| == Bytes(total, 2 * channels) && Nearest(wanted, rate * fadeMs, 1_000)
    requires frame < total && channel < channels && Aligned(pcm, channels)
    ensures FadesAt(Released(pcm, rate, channels, fadeMs), pcm, total, channels,
                    if wanted < total then wanted else total, frame, channel)
  {
    hide Bytes, FadeFrames, FadedTail, Nearest, ScaledFrom, Scaled;
    var size := 2 * channels;
    FadeIs(pcm, rate, channels, fadeMs, total, wanted);
    var fade := FadeFrames(pcm, rate, channels, fadeMs);
    BytesSum(total - fade, fade, size);
    var start := |pcm| - Bytes(fade, size);
    var tail := pcm[start..];
    var faded := FadedTail(tail, size, fade, fade);
    var at := Offset(frame, channel, channels);
    FrameFits(frame, total, channel, channels);
    var released := Released(pcm, rate, channels, fadeMs);
    assert released == pcm[..start] + faded;
    if frame + fade < total {
      FrameFits(frame, total - fade, channel, channels);
      assert released[at..at + 2] == pcm[at..at + 2];
    } else {
      var i := frame - (total - fade);
      BytesSum(total - fade, i, size);
      TailAt(tail, channels, fade, fade, i, channel);
      assert released[at..at + 2] == faded[at - start..at - start + 2];
      assert tail[at - start] == pcm[at] && tail[at - start + 1] == pcm[at + 1];
      ScaledIs(pcm[at], pcm[at + 1], total - 1 - frame, fade, pcm, at, released, at);
    }
  }

  /**
   * What a finished unit is. The fade takes fadeMs at the sample rate, rounded to whole frames, and no more than the
   * unit has; the silence takes silenceMs.
   */
  lemma FinishedSamples(pcm: Pcm, rate: nat, channels: nat, fadeMs: nat, silenceMs: nat,
                        total: nat, wanted: nat, silence: nat)
    requires channels > 0 && |pcm| == Bytes(total, 2 * channels)
    requires Nearest(wanted, rate * fadeMs, 1_000) && Nearest(silence, rate * silenceMs, 1_000)
    ensures Aligned(pcm, channels)
    ensures FinishedAs(Finished(pcm, rate, channels, fadeMs, silenceMs), pcm, total, channels,
                       if wanted < total then wanted else total, silence)
  {
    hide Bytes, Released, Nearest, ScaledFrom, Offset;
    var fade := if wanted < total then wanted else total;
    FadeIs(pcm, rate, channels, fadeMs, total, wanted);
    NearestIsRounded(silence, rate * silenceMs, 1_000);
    var released := Released(pcm, rate, channels, fadeMs);
    var finished := Finished(pcm, rate, channels, fadeMs, silenceMs);
    assert finished == released + Zeros(Bytes(silence, 2 * channels));
    forall frame, channel | 0 <= frame < total && 0 <= channel < channels
      ensures FadesAt(finished, pcm, total, channels, fade, frame, channel)
    {
      ReleasedAt(pcm, rate, channels, fadeMs, total, wanted, frame, channel);
      Longer(released, finished, pcm, total, channels, fade, frame, channel);
    }
  }

  lemma Longer(short: Pcm, long: Pcm, pcm: Pcm, total: nat, channels: nat, fade: nat, frame: nat, channel: nat)
    requires |short| <= |long| && long[..|short|] == short
    requires FadesAt(short, pcm, total, channels, fade, frame, channel)
    ensures FadesAt(long, pcm, total, channels, fade, frame, channel)
  {
    hide Bytes, Nearest;
    var at := Offset(frame, channel, channels);
    assert forall i :: 0 <= i < |short| ==> long[i] == long[..|short|][i];
    if frame + fade >= total {
      var v, w :| Holds(pcm, at, v) && Holds(short, at, w) && Nearest(w, v * (total - 1 - frame), fade);
      assert Holds(long, at, w);
    }
  }

  /** Every unit has such numbers, so the law above covers every finished unit. */
  lemma FinishedIsSome(pcm: Pcm, rate: nat, channels: nat, fadeMs: nat, silenceMs: nat)
    requires Aligned(pcm, channels)
    ensures exists total: nat, wanted: nat, silence: nat ::
              && |pcm| == Bytes(total, 2 * channels)
              && Nearest(wanted, rate * fadeMs, 1_000) && Nearest(silence, rate * silenceMs, 1_000)
              && FinishedAs(Finished(pcm, rate, channels, fadeMs, silenceMs), pcm, total, channels,
                            if wanted < total then wanted else total, silence)
  {
    hide FinishedAs, Finished, Nearest;
    var total, wanted, silence := FrameCount(pcm, channels), FramesIn(fadeMs, rate), FramesIn(silenceMs, rate);
    RoundedIsNearest(rate * fadeMs, 1_000);
    RoundedIsNearest(rate * silenceMs, 1_000);
    FinishedSamples(pcm, rate, channels, fadeMs, silenceMs, total, wanted, silence);
  }
}
