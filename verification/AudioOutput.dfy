/** Emission of synthesized speech as numbered, timed chunks: the batch path and the streaming hold-back path. */
module AudioOutput {
  import opened SpeechPcm
  import opened SpeechFade

  datatype Option<+T> = None | Some(value: T)

  datatype RawFormat = Format(rate: nat, channels: nat)

  type Format = f: RawFormat | f.rate > 0 && f.channels > 0 witness RawFormat.Format(16_000, 1)

  datatype Synthesized = Synthesized(pcm: Pcm, format: Format)

  datatype Event =
    | Speaking
    | Chunk(index: nat, format: Format, durationMs: nat, data: Pcm)
    | End(reason: string)

  function BytesPerSecond(f: Format): (n: nat)
    ensures n > 0
  {
    assert f.rate * f.channels > 0;
    f.rate * f.channels * 2
  }

  function Duration(data: Pcm, f: Format): nat {
    var rounded := Rounded(|data| * 1_000, BytesPerSecond(f));
    if rounded < 1 then 1 else rounded
  }

  function ChunkFor(data: Pcm, index: nat, f: Format): Event {
    Chunk(index, f, Duration(data, f), data)
  }

  /** PCM cut into chunks of `size` bytes, the last one possibly shorter. */
  function Chunks(pcm: Pcm, size: nat, index: nat, f: Format): seq<Event>
    requires size > 0
    decreases |pcm|
  {
    if pcm == [] then []
    else if |pcm| <= size then [ChunkFor(pcm, index, f)]
    else [ChunkFor(pcm[..size], index, f)] + Chunks(pcm[size..], size, index + 1, f)
  }

  // -------------------------------------------------------------------------
  // Observations on event lists
  // -------------------------------------------------------------------------

  /** All the audio in the chunks, in order. */
  function Audio(events: seq<Event>): Pcm {
    if events == [] then [] else
      Audio(events[..|events| - 1]) + (if events[|events| - 1].Chunk? then events[|events| - 1].data else [])
  }

  function ChunkCount(events: seq<Event>): nat {
    if events == [] then 0
    else ChunkCount(events[..|events| - 1]) + (if events[|events| - 1].Chunk? then 1 else 0)
  }

  function TotalDuration(events: seq<Event>): nat {
    if events == [] then 0
    else TotalDuration(events[..|events| - 1]) + (if events[|events| - 1].Chunk? then events[|events| - 1].durationMs else 0)
  }

  /** Chunks are numbered 0, 1, 2, ... and have one format. */
  ghost predicate Numbered(events: seq<Event>, f: Option<Format>) {
    events == [] ||
    (&& Numbered(events[..|events| - 1], f)
     && var e := events[|events| - 1];
        e.Chunk? ==> e.index == ChunkCount(events[..|events| - 1]) && f == Some(e.format))
  }

  /** Every chunk's duration is within one millisecond of the true length of its data. */
  ghost predicate Timed(events: seq<Event>) {
    events == [] ||
    (&& Timed(events[..|events| - 1])
     && var e := events[|events| - 1];
        e.Chunk? ==> Abs(e.durationMs * BytesPerSecond(e.format) - |e.data| * 1_000) <= BytesPerSecond(e.format))
  }

  /** Chunks come only after the speaking event, and that comes once. */
  ghost predicate Opened(events: seq<Event>, started: bool) {
    if events == [] then !started
    else match events[|events| - 1]
      case Speaking => started && Opened(events[..|events| - 1], false)
      case Chunk(_, _, _, _) => started && Opened(events[..|events| - 1], true)
      case End(_) => Opened(events[..|events| - 1], started)
  }

  /** What was published since is the speaking event or a chunk that is neither empty nor too big. */
  ghost predicate Small(before: seq<Event>, events: seq<Event>, size: nat, f: Format) {
    && before <= events
    && forall i {:trigger events[i]} :: |before| <= i < |events| ==> SmallEvent(events[i], size, f)
  }

  predicate SmallEvent(e: Event, size: nat, f: Format) {
    e.Speaking? || (e.Chunk? && 1 <= |e.data| <= size && e.format == f)
  }

  lemma DurationNear(data: Pcm, f: Format)
    requires data != []
    ensures Abs(Duration(data, f) * BytesPerSecond(f) - |data| * 1_000) <= BytesPerSecond(f)
  {
    RoundedNear(|data| * 1_000, BytesPerSecond(f));
    if Rounded(|data| * 1_000, BytesPerSecond(f)) < 1 {
      NoNegative(Rounded(|data| * 1_000, BytesPerSecond(f)), BytesPerSecond(f), |data| * 1_000);
    }
  }

  lemma NoNegative(q: int, d: nat, n: nat)
    requires d > 0 && n > 0 && 2 * Abs(q * d - n) <= d && q < 1
    ensures q == 0 && 2 * n <= d
  {
    assert (2 * q + 1) * d == 2 * (q * d) + d;
    PositiveFactor(2 * q + 1, d);
  }

  /** The summed durations are within one millisecond per chunk of the true length of the audio. */
  lemma {:induction false} SummedDurations(events: seq<Event>, f: Format)
    requires Numbered(events, Some(f)) && Timed(events)
    ensures Abs(TotalDuration(events) * BytesPerSecond(f) - |Audio(events)| * 1_000)
            <= ChunkCount(events) * BytesPerSecond(f)
    decreases |events|
  {
    if events != [] {
      var before, e := events[..|events| - 1], events[|events| - 1];
      SummedDurations(before, f);
      if e.Chunk? {
        Distributes(TotalDuration(before), e.durationMs, BytesPerSecond(f));
        Distributes(ChunkCount(before), 1, BytesPerSecond(f));
      }
    }
  }

  /** Without a chunk yet any format may be taken. */
  lemma {:induction false} NoChunks(events: seq<Event>, f: Format)
    requires ChunkCount(events) == 0
    ensures Numbered(events, Some(f))
    decreases |events|
  {
    if events != [] {
      NoChunks(events[..|events| - 1], f);
    }
  }

  lemma Regroup(before: seq<Event>, e: Event, after: seq<Event>)
    ensures before + ([e] + after) == (before + [e]) + after
  {}

  lemma Prefixes(before: Pcm, pcm: Pcm, offset: nat, end: nat)
    requires offset <= end <= |pcm|
    ensures before + pcm[..offset] + pcm[offset..end] == before + pcm[..end]
  {}

  /** The chunks of the rest of the PCM, from one offset to the next. */
  lemma ChunksStep(pcm: Pcm, offset: nat, end: nat, size: nat, index: nat, f: Format)
    requires size > 0 && offset <= |pcm|
    requires end == if offset + size <= |pcm| then offset + size else |pcm|
    ensures if offset == |pcm| then Chunks(pcm[offset..], size, index, f) == [] else
              var event := ChunkFor(pcm[offset..end], index, f);
              && event.Chunk? && event.index == index && event.format == f && event.data == pcm[offset..end]
              && Chunks(pcm[offset..], size, index, f) == [event] + Chunks(pcm[end..], size, index + 1, f)
              && SmallEvent(event, size, f)
              && Abs(event.durationMs * BytesPerSecond(f) - |event.data| * 1_000) <= BytesPerSecond(f)
  {
    hide BytesPerSecond;
    hide Duration;
    var rest := pcm[offset..];
    if rest != [] {
      DurationNear(pcm[offset..end], f);
      assert rest[..end - offset] == pcm[offset..end] && rest[end - offset..] == pcm[end..];
      assert end == |pcm| ==> pcm[end..] == [] && rest == pcm[offset..end];
    }
  }

  lemma Distributes(a: nat, b: nat, d: nat)
    ensures (a + b) * d == a * d + b * d
  {}

  lemma {:induction false} Appended(before: seq<Event>, e: Event)
    ensures Audio(before + [e]) == Audio(before) + (if e.Chunk? then e.data else [])
    ensures ChunkCount(before + [e]) == ChunkCount(before) + (if e.Chunk? then 1 else 0)
    ensures forall f :: Numbered(before + [e], f) <==>
                        Numbered(before, f) && (e.Chunk? ==> e.index == ChunkCount(before) && f == Some(e.format))
    ensures Timed(before + [e]) <==>
              Timed(before) &&
              (e.Chunk? ==> Abs(e.durationMs * BytesPerSecond(e.format) - |e.data| * 1_000) <= BytesPerSecond(e.format))
    ensures forall started :: Opened(before + [e], started) <==>
                              if e.End? then Opened(before, started) else started && Opened(before, e.Chunk?)
  {
    assert (before + [e])[..|before|] == before;
  }

  // -------------------------------------------------------------------------
  // The output of one response
  // -------------------------------------------------------------------------

  class Output {
    const chunkBytes: nat
    const fadeMs: nat
    const unitSilenceMs: nat
    var format: Option<Format>
    var chunkIndex: nat
    var started: bool
    var events: seq<Event>

    ghost predicate Valid()
      reads this
    {
      && chunkBytes > 0
      && chunkIndex == ChunkCount(events)
      && Numbered(events, format)
      && Timed(events)
      && Opened(events, started)
      && (format.None? ==> ChunkCount(events) == 0)
    }

    constructor (chunkBytes: nat, fadeMs: nat, unitSilenceMs: nat)
      requires chunkBytes > 0
      ensures Valid() && events == [] && format == None && !started
      ensures this.chunkBytes == chunkBytes && this.fadeMs == fadeMs && this.unitSilenceMs == unitSilenceMs
    {
      this.chunkBytes, this.fadeMs, this.unitSilenceMs := chunkBytes, fadeMs, unitSilenceMs;
      format, chunkIndex, started, events := None, 0, false, [];
    }

    /** Deliver one event, and note the speaking one. */
    method Deliver(event: Event)
      requires Valid() && format.Some?
      requires !event.End? ==> started == event.Chunk?
      requires event.Chunk? ==>
                 && event.index == chunkIndex && event.format == format.value
                 && Abs(event.durationMs * BytesPerSecond(event.format) - |event.data| * 1_000)
                    <= BytesPerSecond(event.format)
      modifies this`chunkIndex, this`events, this`started
      ensures Valid()
      ensures events == old(events) + [event] && started == (old(started) || event.Speaking?)
      ensures chunkIndex == old(chunkIndex) + (if event.Chunk? then 1 else 0)
      ensures Audio(events) == old(Audio(events)) + (if event.Chunk? then event.data else [])
    {
      Appended(events, event);
      events := events + [event];
      if event.Chunk? {
        chunkIndex := chunkIndex + 1;
      }
      if event.Speaking? {
        started := true;
      }
    }

    /** Cut PCM into chunk events. */
    method EmitPcmChunks(pcm: Pcm)
      requires Valid() && format.Some?
      modifies this`chunkIndex, this`started, this`events
      ensures Valid()
      ensures started == (old(started) || pcm != [])
      ensures events == old(events) + (if pcm != [] && !old(started) then [Speaking] else [])
                        + Chunks(pcm, chunkBytes, old(chunkIndex), format.value)
      ensures Audio(events) == old(Audio(events)) + pcm
      ensures Small(old(events), events, chunkBytes, format.value)
    {
      hide Audio;
      hide ChunkCount;
      hide Numbered;
      hide Timed;
      hide ChunkFor;
      hide BytesPerSecond;
      hide Chunks;
      hide Opened;
      var f := format.value;
      if pcm == [] {
        ChunksStep(pcm, 0, 0, chunkBytes, chunkIndex, f);
        return;
      }
      if !started {
        Deliver(Speaking);
      }
      ghost var first := events;
      var offset := 0;
      assert pcm[0..] == pcm;
      while offset < |pcm|
        invariant 0 <= offset <= |pcm|
        invariant Valid() && format == Some(f) && started
        invariant events + Chunks(pcm[offset..], chunkBytes, chunkIndex, f)
                  == first + Chunks(pcm, chunkBytes, old(chunkIndex), f)
        invariant Audio(events) == old(Audio(events)) + pcm[..offset]
        invariant Small(old(events), events, chunkBytes, f)
      {
        var end := if offset + chunkBytes <= |pcm| then offset + chunkBytes else |pcm|;
        ChunksStep(pcm, offset, end, chunkBytes, chunkIndex, f);
        var event := ChunkFor(pcm[offset..end], chunkIndex, f);
        Regroup(events, event, Chunks(pcm[end..], chunkBytes, chunkIndex + 1, f));
        Prefixes(old(Audio(events)), pcm, offset, end);
        Deliver(event);
        offset := end;
      }
      assert pcm[..offset] == pcm;
      ChunksStep(pcm, offset, offset, chunkBytes, chunkIndex, f);
      assert first == old(events) + (if !old(started) then [Speaking] else []);
    }

    /**
     * Close the response: a chunk of silence after audible output, then the end event. Every announced duration stays
     * right unless the silence's own is not.
     */
    method EndAudioOutput(reason: string, tailSilenceMs: nat)
      requires Valid()
      modifies this`chunkIndex, this`events
      ensures var tail := if started && format.Some? && tailSilenceMs > 0
                          then [Chunk(old(chunkIndex), format.value, tailSilenceMs,
                                      TailSilence(format.value, tailSilenceMs))]
                          else [];
              events == old(events) + tail + [End(reason)] && chunkIndex == old(chunkIndex) + |tail|
      ensures Valid() <==> (started && format.Some? && tailSilenceMs > 0 ==> TailRight(format.value, tailSilenceMs))
      ensures format.None? || format.value.rate >= 500 ==> Valid()
    {
      hide TailSilence, TailRight;
      if started && format.Some? && tailSilenceMs > 0 {
        var silence := Chunk(chunkIndex, format.value, tailSilenceMs, TailSilence(format.value, tailSilenceMs));
        TailTimed(format.value, tailSilenceMs);
        Appended(events, silence);
        events := events + [silence];
        chunkIndex := chunkIndex + 1;
      }
      Appended(events, End(reason));
      events := events + [End(reason)];
    }

    /** The batch path: finish the whole unit, then emit it. */
    method EmitSynthesizedAudio(output: Synthesized) returns (ok: bool)
      requires Valid()
      modifies this
      ensures Valid()
      ensures ok <==> Aligned(output.pcm, output.format.channels) && old(format) in {None, Some(output.format)}
      ensures ok ==> format == Some(output.format) && Small(old(events), events, chunkBytes, output.format)
      ensures ok ==> Audio(events) == old(Audio(events)) +
                       Finished(output.pcm, output.format.rate, output.format.channels, fadeMs, unitSilenceMs)
      ensures !ok ==> events == old(events)
    {
      hide Opened;
      hide Finished;
      hide Chunks;
      hide Timed;
      var current := output.format;
      if format == None {
        NoChunks(events, current);
        format := Some(current);
      } else if format != Some(current) {
        return false;
      }
      if |output.pcm| % (current.channels * 2) != 0 {
        return false;
      }
      var aligned, pcm := FinishSpeechUnit(output.pcm, current.rate, current.channels, fadeMs, unitSilenceMs);
      EmitPcmChunks(pcm);
      ok := true;
    }

    /**
     * The streaming path: pieces are emitted as they arrive except for a held-back tail, which alone is finished.
     * It accepts exactly a non-empty run of whole-frame pieces of one format, and for every way of cutting the unit
     * emits the bytes that the batch path emits for the whole unit.
     */
    method EmitStreamedSynthesizedAudio(outputs: seq<Synthesized>) returns (ok: bool)
      requires Valid()
      modifies this
      ensures Valid()
      ensures ok <==> outputs != [] && Uniform(outputs) && old(format) in {None, Some(outputs[0].format)}
      ensures ok ==> Aligned(Joined(outputs), outputs[0].format.channels)
      ensures ok ==> format == Some(outputs[0].format)
      ensures outputs == [] ==> events == old(events)
      ensures outputs != [] ==> Small(old(events), events, chunkBytes, outputs[0].format)
      ensures ok ==> Audio(events) == old(Audio(events)) +
                       Finished(Joined(outputs), outputs[0].format.rate, outputs[0].format.channels,
                                fadeMs, unitSilenceMs)
    {
      hide Finished;
      hide Chunks;
      hide Timed;
      hide Joined;
      hide Audio;
      hide Aligned;
      hide Held;
      hide Numbered;
      hide ChunkCount;
      hide Opened;
      if outputs == [] {
        return false;
      }
      var first := outputs[0].format;
      var tail: Pcm := [];
      ghost var ready: Pcm := [];
      JoinedStep(outputs[..0]);
      NothingHeld(first, fadeMs);
      for i := 0 to |outputs|
        invariant Valid()
        invariant i > 0 ==> format == Some(first) && Uniform(outputs[..i])
        invariant i == 0 ==> format == old(format)
        invariant old(format) in {None, Some(first)} || i == 0
        invariant Joined(outputs[..i]) == ready + tail
        invariant Audio(events) == old(Audio(events)) + ready
        invariant Small(old(events), events, chunkBytes, first)
        invariant Held(ready, tail, first, fadeMs)
      {
        var output := outputs[i];
        var current := output.format;
        assert outputs[..i + 1][..i] == outputs[..i] && outputs[..i + 1][i] == output;
        if current != first {
          return false;
        }
        if format == None {
          NoChunks(events, current);
          format := Some(current);
        } else if format != Some(current) {
          return false;
        }
        if !Aligned(output.pcm, current.channels) {
          return false;
        }
        var out: Pcm;
        out, tail := HoldBack(tail, output.pcm, current, fadeMs, ready);
        JoinedStep(outputs[..i + 1]);
        EmitPcmChunks(out);
        ready := ready + out;
      }
      assert outputs[..|outputs|] == outputs;
      FinishHeld(ready, tail, first, fadeMs, unitSilenceMs);
      var aligned, last := FinishSpeechUnit(tail, first.rate, first.channels, fadeMs, unitSilenceMs);
      EmitPcmChunks(last);
      ok := true;
    }
  }

  /** The silence emitted at the end of a response. */
  function TailSilence(f: Format, ms: nat): Pcm {
    Zeros(Bytes(FramesIn(ms, f.rate), 2 * f.channels))
  }

  /** The silence is announced in milliseconds and made of whole frames: the two differ by at most a millisecond. */
  predicate TailRight(f: Format, ms: nat) {
    Abs(f.rate * ms - FramesIn(ms, f.rate) * 1_000) <= f.rate
  }

  /** The announced length of the silence is within a millisecond of its data exactly then, and at 500 Hz and above always. */
  lemma TailTimed(f: Format, ms: nat)
    ensures Abs(ms * BytesPerSecond(f) - |TailSilence(f, ms)| * 1_000) <= BytesPerSecond(f) <==> TailRight(f, ms)
    ensures f.rate >= 500 ==> TailRight(f, ms)
  {
    var frames := FramesIn(ms, f.rate);
    RoundedNear(f.rate * ms, 1_000);
    var gap := f.rate * ms - frames * 1_000;
    assert Abs(gap) <= 500;
    assert ms * BytesPerSecond(f) - |TailSilence(f, ms)| * 1_000 == 2 * f.channels * gap by {
      Scaling(f.rate, f.channels, ms, frames);
    }
    assert BytesPerSecond(f) == 2 * f.channels * f.rate;
    Scaled(2 * f.channels, gap, f.rate);
  }

  lemma Scaling(rate: nat, channels: nat, ms: nat, frames: nat)
    ensures ms * (rate * channels * 2) - frames * (2 * channels) * 1_000 == 2 * channels * (rate * ms - frames * 1_000)
  {}

  lemma Scaled(k: nat, x: int, bound: nat)
    requires k > 0
    ensures Abs(k * x) <= k * bound <==> Abs(x) <= bound
  {
    if Abs(x) <= bound {
      Monotone(Abs(x), bound, k);
    } else {
      Monotone(bound + 1, Abs(x), k);
      Distributes(bound, 1, k);
    }
    assert k * x >= 0 <==> x >= 0;
    assert Abs(k * x) == k * Abs(x);
  }

  /** One format, whole frames. */
  predicate Uniform(outputs: seq<Synthesized>) {
    forall i :: 0 <= i < |outputs| ==>
      outputs[i].format == outputs[0].format && Aligned(outputs[i].pcm, outputs[i].format.channels)
  }

  function Joined(outputs: seq<Synthesized>): Pcm {
    if outputs == [] then [] else Joined(outputs[..|outputs| - 1]) + outputs[|outputs| - 1].pcm
  }

  lemma JoinedStep(outputs: seq<Synthesized>)
    ensures outputs == [] ==> Joined(outputs) == []
    ensures outputs != [] ==> Joined(outputs) == Joined(outputs[..|outputs| - 1]) + outputs[|outputs| - 1].pcm
  {}

  /** Of a unit received so far, `ready` was emitted and `tail` is held back. */
  ghost predicate Held(ready: Pcm, tail: Pcm, f: Format, fadeMs: nat) {
    && Aligned(tail, f.channels)
    && Aligned(ready + tail, f.channels)
    && (ready == [] || |tail| == HoldBytes(f.rate, f.channels, fadeMs))
  }

  /** The hold-back arithmetic: how much of the held and the new bytes may be emitted now. */
  method HoldBack(held: Pcm, piece: Pcm, f: Format, fadeMs: nat, ghost ready: Pcm) returns (out: Pcm, tail: Pcm)
    requires Held(ready, held, f, fadeMs) && Aligned(piece, f.channels)
    ensures out + tail == held + piece
    ensures Held(ready + out, tail, f, fadeMs)
    ensures (ready + held) + piece == (ready + out) + tail
  {
    hide FramesIn;
    hide Bytes;
    var hold := Bytes(FramesIn(fadeMs, f.rate), f.channels * 2);
    var combined := held + piece;
    if hold != 0 && |combined| > hold {
      out, tail := combined[..|combined| - hold], combined[|combined| - hold..];
      HoldAligned(tail, f.rate, f.channels, fadeMs);
    } else if hold != 0 {
      out, tail := [], combined;
    } else {
      out, tail := combined, [];
    }
    assert combined == out + tail;
    AlignedParts(held, piece, f.channels);
    AlignedParts(ready + held, piece, f.channels);
    assert (ready + held) + piece == ready + combined == (ready + out) + tail;
  }

  lemma FinishHeld(ready: Pcm, tail: Pcm, f: Format, fadeMs: nat, silenceMs: nat)
    requires Held(ready, tail, f, fadeMs)
    ensures Aligned(tail, f.channels) && Aligned(ready + tail, f.channels)
    ensures Finished(ready + tail, f.rate, f.channels, fadeMs, silenceMs)
            == ready + Finished(tail, f.rate, f.channels, fadeMs, silenceMs)
  {
    HoldingBack(ready, tail, f.rate, f.channels, fadeMs, silenceMs);
  }

  lemma NothingHeld(f: Format, fadeMs: nat)
    ensures Held([], [], f, fadeMs)
  {}

  lemma HoldAligned(tail: Pcm, rate: nat, channels: nat, fadeMs: nat)
    requires channels > 0 && |tail| == HoldBytes(rate, channels, fadeMs)
    ensures Aligned(tail, channels)
  {
    hide FramesIn;
    Remainder(|tail|, FramesIn(fadeMs, rate), 0, 2 * channels);
  }
}
