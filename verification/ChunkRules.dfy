/** How audio is cut into chunks, and how the pieces of a unit join, without naming the functions that do it. */
module ChunkRules {
  import opened SpeechPcm
  import opened AudioOutput
  import Rules = SpeechRules

  /** The i-th chunk of the PCM: its number, its bytes, and its length to the nearest millisecond, at least one. */
  ghost predicate IsChunk(e: Event, pcm: Pcm, size: nat, index: nat, f: Format, i: nat) {
    var from, to := Bytes(i, size), Bytes(i + 1, size);
    && e.Chunk? && e.index == index + i && e.format == f
    && from < |pcm| && e.data == pcm[from..if to < |pcm| then to else |pcm|]
    && Lasts(e.durationMs, |e.data|, f)
  }

  /** So many milliseconds for so many bytes. */
  predicate Lasts(ms: nat, bytes: nat, f: Format) {
    var perSecond := f.rate * f.channels * 2;
    ms >= 1 && (Rules.Nearest(ms, bytes * 1_000, perSecond) || (ms == 1 && Rules.Nearest(0, bytes * 1_000, perSecond)))
  }

  lemma DurationLasts(data: Pcm, f: Format)
    ensures Lasts(Duration(data, f), |data|, f)
  {
    var perSecond := BytesPerSecond(f);
    Rules.RoundedIsNearest(|data| * 1_000, perSecond);
    var rounded := Rounded(|data| * 1_000, perSecond);
    if rounded < 1 {
      RoundedBetween(|data| * 1_000, perSecond, 0, |data| * 1_000) by {
        assert |data| * 1_000 <= |data| * 1_000 * perSecond by { Monotone(1, perSecond, |data| * 1_000); }
      }
    }
  }

  lemma FirstChunk(pcm: Pcm, size: nat, index: nat, f: Format)
    requires size > 0 && pcm != []
    ensures IsChunk(ChunkFor(if size < |pcm| then pcm[..size] else pcm, index, f), pcm, size, index, f, 0)
  {
    hide Duration, Lasts;
    BytesStep(0, size);
    DurationLasts(if size < |pcm| then pcm[..size] else pcm, f);
    assert pcm[0..|pcm|] == pcm && (size < |pcm| ==> pcm[0..size] == pcm[..size]);
  }

  lemma LaterChunk(e: Event, pcm: Pcm, size: nat, index: nat, f: Format, i: nat)
    requires size <= |pcm| && IsChunk(e, pcm[size..], size, index + 1, f, i)
    ensures IsChunk(e, pcm, size, index, f, i + 1)
  {
    hide Lasts, Bytes;
    BytesStep(i, size);
    BytesStep(i + 1, size);
    var from, to := Bytes(i, size), Bytes(i + 1, size);
    var end := if to < |pcm| - size then to else |pcm| - size;
    assert pcm[size..][from..end] == pcm[size + from..size + end];
  }

  /** Chunks cover the PCM: as many as start before its end, each as described. */
  lemma {:induction false} ChunksAre(pcm: Pcm, size: nat, index: nat, f: Format)
    requires size > 0
    ensures var events := Chunks(pcm, size, index, f);
            && |pcm| <= Bytes(|events|, size) && (events == [] || Bytes(|events| - 1, size) < |pcm|)
            && forall i :: 0 <= i < |events| ==> IsChunk(events[i], pcm, size, index, f, i)
    decreases |pcm|
  {
    hide IsChunk, ChunkFor, Bytes;
    var events := Chunks(pcm, size, index, f);
    BytesStep(0, size);
    if pcm != [] {
      FirstChunk(pcm, size, index, f);
      if size < |pcm| {
        var rest := Chunks(pcm[size..], size, index + 1, f);
        ChunksAre(pcm[size..], size, index + 1, f);
        BytesStep(|rest|, size);
        assert rest != [];
        BytesStep(|rest| - 1, size);
        forall i | 0 < i < |events| ensures IsChunk(events[i], pcm, size, index, f, i) {
          assert events[i] == rest[i - 1];
          LaterChunk(rest[i - 1], pcm, size, index, f, i - 1);
        }
      }
    }
  }

  /** The silence that closes a response: as many silent frames as the time makes. */
  lemma TailSilenceIs(f: Format, ms: nat, frames: nat)
    requires Rules.Nearest(frames, f.rate * ms, 1_000)
    ensures |TailSilence(f, ms)| == Bytes(frames, 2 * f.channels)
    ensures forall b :: b in TailSilence(f, ms) ==> b == 0
  {
    Rules.NearestIsRounded(frames, f.rate * ms, 1_000);
  }

  /** The pieces of a unit join in order. */
  lemma {:induction false} JoinedParts(a: seq<Synthesized>, b: seq<Synthesized>)
    ensures Joined(a + b) == Joined(a) + Joined(b)
    ensures |a| == 1 ==> Joined(a) == a[0].pcm
    decreases |b|
  {
    if |a| == 1 {
      assert a[..0] == [];
    }
    if b == [] {
      assert a + b == a;
    } else {
      var last := b[|b| - 1];
      JoinedParts(a, b[..|b| - 1]);
      assert (a + b)[..|a + b| - 1] == a + b[..|b| - 1] && (a + b)[|a + b| - 1] == last;
    }
  }

  /** So does the audio of the chunks. */
  lemma {:induction false} AudioParts(a: seq<Event>, b: seq<Event>)
    ensures Audio(a + b) == Audio(a) + Audio(b)
    ensures ChunkCount(a + b) == ChunkCount(a) + ChunkCount(b)
    ensures TotalDuration(a + b) == TotalDuration(a) + TotalDuration(b)
    ensures |a| == 1 ==> Audio(a) == (if a[0].Chunk? then a[0].data else [])
    ensures |a| == 1 ==> ChunkCount(a) == (if a[0].Chunk? then 1 else 0)
    ensures |a| == 1 ==> TotalDuration(a) == (if a[0].Chunk? then a[0].durationMs else 0)
    decreases |b|
  {
    if |a| == 1 {
      assert a[..0] == [];
    }
    if b == [] {
      assert a + b == a;
    } else {
      AudioParts(a, b[..|b| - 1]);
      assert (a + b)[..|a + b| - 1] == a + b[..|b| - 1] && (a + b)[|a + b| - 1] == b[|b| - 1];
    }
  }
}
