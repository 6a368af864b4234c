/**
 * PCM of one speech unit: little-endian signed 16-bit samples, a release fade over the last frames and trailing
 * silence. The fade is exact rational arithmetic, rounded half to even.
 */
module SpeechPcm {

  type Byte = b: int | 0 <= b < 256

  type Pcm = seq<Byte>

  function Min(a: nat, b: nat): nat { if a <= b then a else b }

  function Abs(x: int): nat { if x < 0 then -x else x }

  /** The integer nearest to n / d, and the even one of two equally near. */
  function Rounded(n: int, d: nat): int
    requires d > 0
  {
    var q, r := n / d, n % d;
    if 2 * r < d || (2 * r == d && q % 2 == 0) then q else q + 1
  }

  lemma RoundedNear(n: int, d: nat)
    requires d > 0
    ensures 2 * Abs(Rounded(n, d) * d - n) <= d
    ensures n % d == 0 ==> Rounded(n, d) * d == n
  {
    var q, r := n / d, n % d;
    assert n == q * d + r;
    assert (q + 1) * d == q * d + d;
  }

  function Sample(low: Byte, high: Byte): (v: int)
    ensures -32768 <= v < 32768
  {
    var u := low + 256 * high;
    if u >= 32768 then u - 65536 else u
  }

  function Encoded(v: int): (bytes: Pcm)
    requires -32768 <= v < 32768
    ensures |bytes| == 2 && Sample(bytes[0], bytes[1]) == v
  {
    var u := if v < 0 then v + 65536 else v;
    [u % 256, u / 256]
  }

  /** Scaling a sample by num/den, at most one, never enlarges it, so the result always fits 16 bits. */
  lemma ScaledFits(v: int, num: nat, den: nat)
    requires num <= den && den > 0
    ensures Abs(Rounded(v * num, den)) <= Abs(v)
    ensures num == 0 ==> Rounded(v * num, den) == 0
    ensures v >= 0 ==> Rounded(v * num, den) >= 0
    ensures v <= 0 ==> Rounded(v * num, den) <= 0
  {
    hide Rounded;
    if v >= 0 {
      Monotone(num, den, v);
      RoundedBetween(v * num, den, 0, v);
    } else {
      Monotone(num, den, -v);
      RoundedBetween(v * num, den, v, 0);
    }
    if num == 0 {
      RoundedBetween(v * num, den, 0, 0);
    }
  }

  /** Rounding does not leave an interval with integer ends. */
  lemma RoundedBetween(n: int, d: nat, low: int, high: int)
    requires d > 0 && low * d <= n <= high * d
    ensures low <= Rounded(n, d) <= high
  {
    var q, r := n / d, n % d;
    assert n == q * d + r;
    QuotientBounds(q, r, d, low, high);
  }

  lemma Monotone(a: nat, b: nat, v: int)
    requires a <= b && v >= 0
    ensures 0 <= v * a <= v * b
    ensures (-v) * b <= (-v) * a <= 0
  {
    assert v * b == v * a + v * (b - a);
  }

  /** A quotient with remainder between two integers, and its successor when the remainder is not zero. */
  lemma QuotientBounds(q: int, r: nat, d: nat, low: int, high: int)
    requires d > 0 && r < d && low * d <= q * d + r <= high * d
    ensures low <= q <= high && (r > 0 ==> q + 1 <= high)
  {
    Ordered(low, q, r, d);
    NotAbove(q, high, r, d);
  }

  lemma Ordered(low: int, q: int, r: nat, d: nat)
    requires d > 0 && r < d && low * d <= q * d + r
    ensures low <= q
  {
    assert (q + 1 - low) * d == q * d + d - low * d;
    PositiveFactor(q + 1 - low, d);
  }

  lemma PositiveFactor(x: int, d: nat)
    requires x * d > 0
    ensures x > 0
  {}

  lemma NotAbove(q: int, high: int, r: nat, d: nat)
    requires d > 0 && q * d + r <= high * d
    ensures q <= high && (r > 0 ==> q < high)
  {
    assert (high + 1 - q) * d == high * d + d - q * d;
    PositiveFactor(high + 1 - q, d);
    if r > 0 {
      assert (high - q) * d == high * d - q * d;
      PositiveFactor(high - q, d);
    }
  }

  // -------------------------------------------------------------------------
  // The fade
  // -------------------------------------------------------------------------

  function Scaled(low: Byte, high: Byte, num: nat, den: nat): (bytes: Pcm)
    requires num <= den && den > 0
    ensures |bytes| == 2
  {
    ScaledFits(Sample(low, high), num, den);
    Encoded(Rounded(Sample(low, high) * num, den))
  }

  /** One frame with every channel scaled by num/den. */
  function FadedFrame(frame: Pcm, num: nat, den: nat): (faded: Pcm)
    requires |frame| % 2 == 0 && num <= den && den > 0
    ensures |faded| == |frame|
  {
    if frame == [] then [] else Scaled(frame[0], frame[1], num, den) + FadedFrame(frame[2..], num, den)
  }

  /** So many frames of so many bytes. */
  function Bytes(frames: nat, frameBytes: nat): nat { frames * frameBytes }

  lemma BytesStep(frames: nat, frameBytes: nat)
    ensures Bytes(frames + 1, frameBytes) == Bytes(frames, frameBytes) + frameBytes
    ensures Bytes(0, frameBytes) == 0
  {}

  lemma {:induction false} BytesSum(a: nat, b: nat, frameBytes: nat)
    ensures Bytes(a + b, frameBytes) == Bytes(a, frameBytes) + Bytes(b, frameBytes)
  {}

  /** The last `left` of `fade` faded frames: weights (left-1)/fade down to 0/fade. */
  function FadedTail(tail: Pcm, frameBytes: nat, left: nat, fade: nat): (faded: Pcm)
    requires frameBytes % 2 == 0 && left <= fade
    ensures |faded| == |tail|
    decreases left
  {
    if left == 0 || |tail| < frameBytes then tail
    else FadedFrame(tail[..frameBytes], left - 1, fade) + FadedTail(tail[frameBytes..], frameBytes, left - 1, fade)
  }

  /** A whole number of frames. */
  predicate Aligned(pcm: Pcm, channels: nat) {
    channels > 0 && |pcm| % (2 * channels) == 0
  }

  function FrameCount(pcm: Pcm, channels: nat): (frames: nat)
    requires Aligned(pcm, channels)
    ensures Bytes(frames, 2 * channels) == |pcm|
  {
    |pcm| / (2 * channels)
  }

  /** The number of frames in so many milliseconds. */
  function FramesIn(ms: nat, rate: nat): (frames: nat) {
    RoundedNear(rate * ms, 1_000);
    Rounded(rate * ms, 1_000)
  }

  function Zeros(n: nat): (pcm: Pcm)
    ensures |pcm| == n
  {
    seq(n, i => 0)
  }

  /** How many frames of this unit are faded. */
  function FadeFrames(pcm: Pcm, rate: nat, channels: nat, fadeMs: nat): (frames: nat)
    requires Aligned(pcm, channels)
    ensures frames <= FrameCount(pcm, channels) && Bytes(frames, 2 * channels) <= |pcm|
  {
    var frames := Min(FrameCount(pcm, channels), FramesIn(fadeMs, rate));
    BytesSum(frames, FrameCount(pcm, channels) - frames, 2 * channels);
    frames
  }

  /** The unit with its release fade, without the trailing silence. */
  function Released(pcm: Pcm, rate: nat, channels: nat, fadeMs: nat): (released: Pcm)
    requires Aligned(pcm, channels)
    ensures |released| == |pcm|
  {
    hide Bytes, FadeFrames;
    var fade := FadeFrames(pcm, rate, channels, fadeMs);
    var start := |pcm| - Bytes(fade, 2 * channels);
    pcm[..start] + FadedTail(pcm[start..], 2 * channels, fade, fade)
  }

  /** The finished unit. */
  function Finished(pcm: Pcm, rate: nat, channels: nat, fadeMs: nat, silenceMs: nat): (finished: Pcm)
    requires Aligned(pcm, channels)
  {
    Released(pcm, rate, channels, fadeMs) + Zeros(Bytes(FramesIn(silenceMs, rate), 2 * channels))
  }

  // -------------------------------------------------------------------------
  // Finishing in place
  // -------------------------------------------------------------------------

  /** Replace the two bytes of one sample. */
  method WriteSample(output: array<Byte>, at: nat, bytes: Pcm)
    requires at + 2 <= output.Length && |bytes| == 2
    modifies output
    ensures output[..] == old(output[..at]) + bytes + old(output[at + 2..])
  {
    output[at], output[at + 1] := bytes[0], bytes[1];
  }

  /** Scale the sample behind what is finished. */
  method FadeSample(output: array<Byte>, ghost head: Pcm, ghost was: Pcm, at: nat, num: nat, den: nat)
    returns (ghost scaled: Pcm)
    requires |head| == at && at + 2 <= |was| && output[..] == head + was[at..] && num <= den && den > 0
    modifies output
    ensures scaled == head + Scaled(was[at], was[at + 1], num, den)
    ensures |scaled| == at + 2 && output[..] == scaled + was[at + 2..]
  {
    hide Scaled;
    ghost var now := output[..];
    assert now[..at] == head && now[at + 2..] == was[at + 2..] && now[at] == was[at] && now[at + 1] == was[at + 1];
    assert output[at] == now[at] && output[at + 1] == now[at + 1];
    var bytes := Scaled(output[at], output[at + 1], num, den);
    WriteSample(output, at, bytes);
    assert output[..] == now[..at] + bytes + now[at + 2..];
    scaled := head + bytes;
  }

  /** The frame is scaled up to `at`: what is left leads to the target. */
  ghost predicate Channels(done: Pcm, pcm: Pcm, at: nat, end: nat, num: nat, den: nat, target: Pcm)
    requires num <= den && den > 0
  {
    && |done| == at <= end <= |pcm| && (end - at) % 2 == 0
    && done + FadedFrame(pcm[at..end], num, den) == target
  }

  lemma NextChannel(done: Pcm, pcm: Pcm, at: nat, end: nat, num: nat, den: nat, target: Pcm)
    requires num <= den && den > 0 && Channels(done, pcm, at, end, num, den, target) && at < end
    ensures at + 2 <= end <= |pcm| && |done| == at
    ensures Channels(done + Scaled(pcm[at], pcm[at + 1], num, den), pcm, at + 2, end, num, den, target)
  {
    hide Scaled;
    OneSample(done, pcm, at, end, num, den);
  }

  lemma LastChannel(done: Pcm, pcm: Pcm, end: nat, num: nat, den: nat, target: Pcm)
    requires num <= den && den > 0 && Channels(done, pcm, end, end, num, den, target)
    ensures done == target && |done| == end <= |pcm|
  {
    assert pcm[end..end] == [];
    NoFrame(num, den);
  }

  /** Scale every channel of the frame behind what is finished. */
  method FadeFrame(output: array<Byte>, ghost head: Pcm, ghost pcm: Pcm, offset: nat, channels: nat, num: nat, den: nat)
    returns (ghost faded: Pcm)
    requires |head| == offset && offset + 2 * channels <= |pcm| && num <= den && den > 0
    requires output[..] == head + pcm[offset..]
    modifies output
    ensures faded == head + FadedFrame(pcm[offset..offset + 2 * channels], num, den)
    ensures |faded| <= |pcm| && output[..] == faded + pcm[|faded|..]
  {
    hide FadedFrame, Scaled, Channels;
    ghost var end := offset + 2 * channels;
    ghost var target := head + FadedFrame(pcm[offset..end], num, den);
    faded := head;
    var at := offset;
    FirstChannel(head, pcm, end, num, den);
    for channel := 0 to channels
      invariant at == offset + 2 * channel
      invariant Channels(faded, pcm, at, end, num, den, target)
      invariant at <= |pcm| && output[..] == faded + pcm[at..]
    {
      NextChannel(faded, pcm, at, end, num, den, target);
      faded := FadeSample(output, faded, pcm, at, num, den);
      at := at + 2;
    }
    LastChannel(faded, pcm, end, num, den, target);
  }

  lemma FirstChannel(head: Pcm, pcm: Pcm, end: nat, num: nat, den: nat)
    requires num <= den && den > 0 && |head| <= end <= |pcm| && (end - |head|) % 2 == 0
    ensures Channels(head, pcm, |head|, end, num, den, head + FadedFrame(pcm[|head|..end], num, den))
  {}

  lemma NoFrame(num: nat, den: nat)
    requires num <= den && den > 0
    ensures FadedFrame([], num, den) == []
  {}

  lemma OneSample(head: Pcm, was: Pcm, at: nat, end: nat, num: nat, den: nat)
    requires |head| == at && at + 2 <= end <= |was| && (end - at) % 2 == 0 && num <= den && den > 0
    ensures head + FadedFrame(was[at..end], num, den)
            == head + Scaled(was[at], was[at + 1], num, den) + FadedFrame(was[at + 2..end], num, den)
  {
    assert was[at..end][2..] == was[at + 2..end];
  }

  /** The finishing loop. It fails exactly when the PCM does not consist of whole frames. */
  method FinishSpeechUnit(pcm: Pcm, rate: nat, channels: nat, fadeMs: nat, silenceMs: nat)
    returns (ok: bool, finished: Pcm)
    requires rate > 0 && channels > 0
    ensures ok <==> Aligned(pcm, channels)
    ensures ok ==> finished == Finished(pcm, rate, channels, fadeMs, silenceMs)
  {
    hide Bytes, FramesIn, FadeFrames, FrameCount, Zeros, Fading, Released;
    var frameBytes := channels * 2;
    if |pcm| % frameBytes != 0 {
      return false, [];
    }
    var output := new Byte[|pcm|](i requires 0 <= i < |pcm| => pcm[i]);
    var total := FrameCount(pcm, channels);
    var fade := FadeFrames(pcm, rate, channels, fadeMs);
    ghost var head := FadingBegins(pcm, rate, channels, fadeMs);
    assert output[..] == pcm;
    for i := 0 to fade
      invariant Fading(pcm, rate, channels, fadeMs, head, i)
      invariant |head| <= |pcm| && output[..] == head + pcm[|head|..]
    {
      var offset := Bytes(total - fade + i, frameBytes);
      FadingOffset(pcm, rate, channels, fadeMs, head, i);
      FadingStep(pcm, rate, channels, fadeMs, head, i);
      head := FadeFrame(output, head, pcm, offset, channels, fade - i - 1, fade);
    }
    FadingEnds(pcm, rate, channels, fadeMs, head);
    ok, finished := true, output[..] + Zeros(Bytes(FramesIn(silenceMs, rate), frameBytes));
  }

  /** The output up to the i-th faded frame: its length, and what remains to be done to the rest. */
  ghost predicate Fading(pcm: Pcm, rate: nat, channels: nat, fadeMs: nat, head: Pcm, i: nat)
    requires Aligned(pcm, channels) && i <= FadeFrames(pcm, rate, channels, fadeMs)
  {
    var frameBytes, total, fade := 2 * channels, FrameCount(pcm, channels), FadeFrames(pcm, rate, channels, fadeMs);
    && |head| == Bytes(total - fade + i, frameBytes)
    && |head| + Bytes(fade - i, frameBytes) == |pcm|
    && head + FadedTail(pcm[|head|..], frameBytes, fade - i, fade) == Released(pcm, rate, channels, fadeMs)
  }

  lemma FadingBegins(pcm: Pcm, rate: nat, channels: nat, fadeMs: nat) returns (head: Pcm)
    requires Aligned(pcm, channels)
    ensures Fading(pcm, rate, channels, fadeMs, head, 0) && |head| <= |pcm| && head + pcm[|head|..] == pcm
  {
    hide Bytes, FadeFrames, FadedTail, FrameCount;
    var total, fade := FrameCount(pcm, channels), FadeFrames(pcm, rate, channels, fadeMs);
    BytesSum(total - fade, fade, 2 * channels);
    head := pcm[..|pcm| - Bytes(fade, 2 * channels)];
  }

  /** The output with one more frame. */
  ghost function WithNext(pcm: Pcm, channels: nat, head: Pcm, fade: nat, i: nat): Pcm
    requires |head| + 2 * channels <= |pcm| && i < fade
  {
    head + FadedFrame(pcm[|head|..|head| + 2 * channels], fade - i - 1, fade)
  }

  lemma FadingOffset(pcm: Pcm, rate: nat, channels: nat, fadeMs: nat, head: Pcm, i: nat)
    requires Aligned(pcm, channels) && i <= FadeFrames(pcm, rate, channels, fadeMs)
    requires Fading(pcm, rate, channels, fadeMs, head, i)
    ensures |head| == Bytes(FrameCount(pcm, channels) - FadeFrames(pcm, rate, channels, fadeMs) + i, 2 * channels)
  {}

  lemma FadingStep(pcm: Pcm, rate: nat, channels: nat, fadeMs: nat, head: Pcm, i: nat)
    requires Aligned(pcm, channels) && i < FadeFrames(pcm, rate, channels, fadeMs)
    requires Fading(pcm, rate, channels, fadeMs, head, i)
    ensures |head| + 2 * channels <= |pcm|
    ensures Fading(pcm, rate, channels, fadeMs, WithNext(pcm, channels, head, FadeFrames(pcm, rate, channels, fadeMs), i), i + 1)
  {
    hide Bytes, FadeFrames, FadedTail, FadedFrame, FrameCount, Released;
    var frameBytes, total, fade := 2 * channels, FrameCount(pcm, channels), FadeFrames(pcm, rate, channels, fadeMs);
    BytesStep(total - fade + i, frameBytes);
    BytesStep(fade - i - 1, frameBytes);
    OneFrame(head, pcm, frameBytes, fade - i, fade);
  }

  lemma FadingEnds(pcm: Pcm, rate: nat, channels: nat, fadeMs: nat, head: Pcm)
    requires Aligned(pcm, channels) && Fading(pcm, rate, channels, fadeMs, head, FadeFrames(pcm, rate, channels, fadeMs))
    ensures |head| <= |pcm| && head + pcm[|head|..] == Released(pcm, rate, channels, fadeMs)
  {
    hide Bytes, FadeFrames, FadedTail, FrameCount, Released;
    var fade := FadeFrames(pcm, rate, channels, fadeMs);
    BytesStep(0, 2 * channels);
    assert pcm[|head|..] == [];
    NoTail(2 * channels, fade);
  }

  lemma NoTail(frameBytes: nat, fade: nat)
    requires frameBytes % 2 == 0
    ensures FadedTail([], frameBytes, 0, fade) == []
  {}

  lemma OneFrame(head: Pcm, pcm: Pcm, frameBytes: nat, left: nat, fade: nat)
    requires |head| + frameBytes <= |pcm| && frameBytes % 2 == 0 && 0 < left <= fade
    ensures var now := head + pcm[|head|..];
            && now[|head|..|head| + frameBytes] == pcm[|head|..|head| + frameBytes]
            && now[..|head|] == head && now[|head| + frameBytes..] == pcm[|head| + frameBytes..]
    ensures head + FadedTail(pcm[|head|..], frameBytes, left, fade)
            == head + FadedFrame(pcm[|head|..|head| + frameBytes], left - 1, fade)
               + FadedTail(pcm[|head| + frameBytes..], frameBytes, left - 1, fade)
  {
    var tail := pcm[|head|..];
    assert tail[..frameBytes] == pcm[|head|..|head| + frameBytes];
    assert tail[frameBytes..] == pcm[|head| + frameBytes..];
  }
}
