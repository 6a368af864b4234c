/** What the release fade does to a unit, and why holding back the unit's tail loses nothing. */
module SpeechFade {
  import opened SpeechPcm

  /** Sample by sample, `a` is nowhere louder than `b` and never changes sign. */
  ghost predicate Quieter(a: Pcm, b: Pcm) {
    && |a| == |b|
    && forall i {:trigger QuieterAt(a, b, i)} :: 0 <= i && i + 1 < |a| && i % 2 == 0 ==> QuieterAt(a, b, i)
  }

  ghost predicate QuieterAt(a: Pcm, b: Pcm, i: nat)
    requires |a| == |b| && i + 1 < |a|
  {
    var x, y := Sample(a[i], a[i + 1]), Sample(b[i], b[i + 1]);
    Abs(x) <= Abs(y) && (y >= 0 ==> x >= 0) && (y <= 0 ==> x <= 0)
  }

  lemma QuieterParts(a: Pcm, b: Pcm, c: Pcm, d: Pcm)
    requires |a| % 2 == 0 && Quieter(a, b) && Quieter(c, d)
    ensures Quieter(a + c, b + d)
  {
    forall i | 0 <= i && i + 1 < |a + c| && i % 2 == 0 ensures QuieterAt(a + c, b + d, i) {
      if i < |a| {
        assert QuieterAt(a, b, i);
      } else {
        assert QuieterAt(c, d, i - |a|);
      }
    }
  }

  lemma {:induction false} FrameQuieter(frame: Pcm, num: nat, den: nat)
    requires |frame| % 2 == 0 && num <= den && den > 0
    ensures Quieter(FadedFrame(frame, num, den), frame)
    ensures num == 0 ==> FadedFrame(frame, num, den) == Zeros(|frame|)
    decreases |frame|
  {
    if frame != [] {
      var v := Sample(frame[0], frame[1]);
      ScaledFits(v, num, den);
      FrameQuieter(frame[2..], num, den);
      var first := Scaled(frame[0], frame[1], num, den);
      assert first == Encoded(Rounded(v * num, den));
      assert QuieterAt(first, frame[..2], 0);
      QuieterParts(first, frame[..2], FadedFrame(frame[2..], num, den), frame[2..]);
      assert frame == frame[..2] + frame[2..];
      if num == 0 {
        assert first == [0, 0];
        assert Zeros(2) + Zeros(|frame| - 2) == Zeros(|frame|);
      }
    }
  }

  lemma {:induction false} TailQuieter(tail: Pcm, frameBytes: nat, left: nat, fade: nat)
    requires frameBytes % 2 == 0 && left <= fade
    ensures Quieter(FadedTail(tail, frameBytes, left, fade), tail)
    decreases left
  {
    if left > 0 && |tail| >= frameBytes {
      hide FadedFrame;
      FrameQuieter(tail[..frameBytes], left - 1, fade);
      TailQuieter(tail[frameBytes..], frameBytes, left - 1, fade);
      QuieterParts(FadedFrame(tail[..frameBytes], left - 1, fade), tail[..frameBytes],
                   FadedTail(tail[frameBytes..], frameBytes, left - 1, fade), tail[frameBytes..]);
      assert tail == tail[..frameBytes] + tail[frameBytes..];
    }
  }

  lemma {:induction false} TailEndsSilent(tail: Pcm, frameBytes: nat, left: nat, fade: nat)
    requires frameBytes > 0 && frameBytes % 2 == 0 && 0 < left <= fade
    requires |tail| == Bytes(left, frameBytes)
    ensures |tail| >= frameBytes
    ensures FadedTail(tail, frameBytes, left, fade)[|tail| - frameBytes..] == Zeros(frameBytes)
    decreases left
  {
    BytesStep(left - 1, frameBytes);
    hide FadedFrame;
    hide Bytes;
    FrameQuieter(tail[..frameBytes], left - 1, fade);
    if left == 1 {
      BytesStep(0, frameBytes);
      NoTail(frameBytes, fade);
      assert tail[frameBytes..] == [];
      assert FadedTail(tail, frameBytes, left, fade) == Zeros(frameBytes) + [];
    } else {
      TailEndsSilent(tail[frameBytes..], frameBytes, left - 1, fade);
      var rest := FadedTail(tail[frameBytes..], frameBytes, left - 1, fade);
      assert FadedTail(tail, frameBytes, left, fade)[|tail| - frameBytes..] == rest[|rest| - frameBytes..];
    }
  }

  /** Fading never enlarges a sample, so no result overflows 16 bits, and leaves the last faded frame silent. */
  lemma {:induction false} ReleaseIsGentle(pcm: Pcm, rate: nat, channels: nat, fadeMs: nat)
    requires Aligned(pcm, channels)
    ensures Quieter(Released(pcm, rate, channels, fadeMs), pcm)
    ensures pcm != [] && FramesIn(fadeMs, rate) > 0 ==>
              && |pcm| >= 2 * channels
              && Released(pcm, rate, channels, fadeMs)[|pcm| - 2 * channels..] == Zeros(2 * channels)
  {
    hide FadedTail;
    hide FramesIn;
    var fade := FadeFrames(pcm, rate, channels, fadeMs);
    var start := |pcm| - Bytes(fade, 2 * channels);
    var frames := FrameCount(pcm, channels);
    EvenOffset(fade, frames, channels);
    TailQuieter(pcm[start..], 2 * channels, fade, fade);
    Unchanged(pcm[..start]);
    QuieterParts(pcm[..start], pcm[..start], FadedTail(pcm[start..], 2 * channels, fade, fade), pcm[start..]);
    assert pcm == pcm[..start] + pcm[start..];
    if pcm != [] && FramesIn(fadeMs, rate) > 0 {
      BytesStep(0, 2 * channels);
      TailEndsSilent(pcm[start..], 2 * channels, fade, fade);
      var faded := FadedTail(pcm[start..], 2 * channels, fade, fade);
      assert (pcm[..start] + faded)[|pcm| - 2 * channels..] == faded[|faded| - 2 * channels..];
    }
  }

  lemma Unchanged(pcm: Pcm)
    ensures Quieter(pcm, pcm)
  {}

  lemma EvenOffset(fade: nat, frames: nat, channels: nat)
    requires fade <= frames
    ensures (Bytes(frames, 2 * channels) - Bytes(fade, 2 * channels)) % 2 == 0
  {
    assert Bytes(frames, 2 * channels) - Bytes(fade, 2 * channels) == 2 * ((frames - fade) * channels);
  }

  // -------------------------------------------------------------------------
  // Holding back
  // -------------------------------------------------------------------------

  /** The number of bytes the streaming path holds back. */
  function HoldBytes(rate: nat, channels: nat, fadeMs: nat): nat {
    Bytes(FramesIn(fadeMs, rate), 2 * channels)
  }

  lemma AlignedParts(a: Pcm, b: Pcm, channels: nat)
    requires Aligned(a, channels)
    ensures Aligned(a + b, channels) <==> Aligned(b, channels)
  {
    var m := 2 * channels;
    var k := |a| / m;
    assert |a| == k * m;
    assert (|a| + |b|) % m == |b| % m by { ModAdd(k, |b|, m); }
  }

  lemma ModAdd(k: nat, n: nat, m: nat)
    requires m > 0
    ensures (k * m + n) % m == n % m
  {
    assert k * m + n == (k + n / m) * m + n % m;
    Remainder(k * m + n, k + n / m, n % m, m);
  }

  lemma Remainder(x: int, a: int, r: nat, m: nat)
    requires r < m && x == a * m + r
    ensures x % m == r
  {
    var q, s := x / m, x % m;
    assert x == q * m + s;
    QuotientBounds(a, r, m, q, q + 1);
    QuotientBounds(q, s, m, a, a + 1);
  }

  /** A unit may be emitted up to its held-back tail; finishing the tail finishes the unit. */
  lemma {:induction false} HoldingBack(ready: Pcm, tail: Pcm, rate: nat, channels: nat, fadeMs: nat, silenceMs: nat)
    requires Aligned(ready + tail, channels) && Aligned(tail, channels)
    requires ready == [] || |tail| == HoldBytes(rate, channels, fadeMs)
    ensures Finished(ready + tail, rate, channels, fadeMs, silenceMs)
            == ready + Finished(tail, rate, channels, fadeMs, silenceMs)
  {
    hide FadedTail;
    hide FramesIn;
    hide Zeros;
    if ready == [] {
      assert ready + tail == tail;
    } else {
      SameFade(ready, tail, rate, channels, fadeMs);
      var all := ready + tail;
      var fade := FadeFrames(tail, rate, channels, fadeMs);
      var start := |tail| - Bytes(fade, 2 * channels);
      assert all[..|ready| + start] == ready + tail[..start];
      assert all[|ready| + start..] == tail[start..];
    }
  }

  lemma SameFade(ready: Pcm, tail: Pcm, rate: nat, channels: nat, fadeMs: nat)
    requires Aligned(ready + tail, channels) && Aligned(tail, channels)
    requires |tail| == HoldBytes(rate, channels, fadeMs)
    ensures FadeFrames(ready + tail, rate, channels, fadeMs) == FadeFrames(tail, rate, channels, fadeMs)
            == FramesIn(fadeMs, rate)
  {
    hide FramesIn;
    var hold := FramesIn(fadeMs, rate);
    BytesOrder(FrameCount(tail, channels), hold, channels);
    BytesOrder(hold, FrameCount(tail, channels), channels);
    BytesOrder(hold, FrameCount(ready + tail, channels), channels);
  }

  lemma BytesOrder(a: nat, b: nat, channels: nat)
    requires channels > 0 && Bytes(a, 2 * channels) <= Bytes(b, 2 * channels)
    ensures a <= b
  {
    if a > b {
      BytesSum(b, a - b, 2 * channels);
      Monotone(1, a - b, 2 * channels);
    }
  }
}
