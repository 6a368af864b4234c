/** Speech for salon replies: several units, each streamed with the same hold-back, numbered across units. */
module SalonSpeech {
  import opened SpeechPcm
  import opened AudioOutput
  import SpeechFade

  datatype Settings = Settings(chunkBytes: nat, fadeMs: nat, unitSilenceMs: nat, finalSilenceMs: nat) {
    predicate Valid() {
      1 <= chunkBytes <= 384 * 1024 && fadeMs <= 100 && unitSilenceMs <= 300 && finalSilenceMs <= 300
    }
  }

  predicate SupportedFormat(f: Format) {
    8_000 <= f.rate <= 192_000 && f.channels in {1, 2}
  }

  /** A unit the service can speak: at least one piece, one supported format, whole frames. */
  predicate Speakable(unit: seq<Synthesized>) {
    unit != [] && Uniform(unit) && SupportedFormat(unit[0].format)
  }

  function UnitAudio(unit: seq<Synthesized>, settings: Settings, silenceMs: nat): Pcm
    requires Speakable(unit)
  {
    JoinedAligned(unit);
    Finished(Joined(unit), unit[0].format.rate, unit[0].format.channels, settings.fadeMs, silenceMs)
  }

  lemma {:induction false} JoinedAligned(unit: seq<Synthesized>)
    requires unit != [] && Uniform(unit)
    ensures Aligned(Joined(unit), unit[0].format.channels)
    decreases |unit|
  {
    hide Aligned;
    var before, last := unit[..|unit| - 1], unit[|unit| - 1];
    if before == [] {
      assert Joined(before) == [] && [] + last.pcm == last.pcm;
    } else {
      assert Uniform(before) by {
        assert forall i :: 0 <= i < |before| ==> before[i] == unit[i];
      }
      JoinedAligned(before);
      Parts(Joined(before), last.pcm, unit[0].format.channels);
    }
  }

  lemma Parts(a: Pcm, b: Pcm, channels: nat)
    requires Aligned(a, channels) && Aligned(b, channels)
    ensures Aligned(a + b, channels)
  {
    SpeechFade.AlignedParts(a, b, channels);
  }

  /** The silence after a unit depends on whether another unit follows. */
  function SilenceAfter(index: nat, count: nat, settings: Settings): nat {
    if index + 1 == count then settings.finalSilenceMs else settings.unitSilenceMs
  }

  /** What the first `n` of the units sound like. */
  function ReplyAudio(units: seq<seq<Synthesized>>, n: nat, settings: Settings): Pcm
    requires n <= |units| && forall i :: 0 <= i < n ==> Speakable(units[i])
  {
    if n == 0 then []
    else ReplyAudio(units, n - 1, settings) + UnitAudio(units[n - 1], settings, SilenceAfter(n - 1, |units|, settings))
  }

  /** Chunk events carry the numbers 0, 1, 2, ... across units, and durations within a millisecond. */
  ghost predicate WellNumbered(events: seq<Event>) {
    events == [] ||
    (&& WellNumbered(events[..|events| - 1])
     && var e := events[|events| - 1];
        e.Chunk? ==> && e.index == ChunkCount(events[..|events| - 1])
                     && Abs(e.durationMs * BytesPerSecond(e.format) - |e.data| * 1_000) <= BytesPerSecond(e.format))
  }

  /** Nothing, or the speaking event followed by chunks of a supported format that are neither empty nor too big. */
  ghost predicate Announced(events: seq<Event>, size: nat) {
    && (events != [] ==> events[0].Speaking?)
    && forall i {:trigger events[i]} :: 0 < i < |events| ==> Playable(events[i], size)
  }

  predicate Playable(e: Event, size: nat) {
    e.Chunk? && 1 <= |e.data| <= size && SupportedFormat(e.format)
  }

  lemma FirstAnnounced(size: nat)
    ensures Announced([Speaking], size)
  {}

  /** Append the chunks of some PCM, continuing the numbering. */
  method PublishPcm(before: seq<Event>, pcm: Pcm, f: Format, index: nat, size: nat)
    returns (events: seq<Event>, next: nat)
    requires size > 0 && WellNumbered(before) && index == ChunkCount(before)
    requires SupportedFormat(f) && before != [] && Announced(before, size)
    ensures WellNumbered(events) && next == ChunkCount(events)
    ensures before <= events && Announced(events, size)
    ensures events == before + Chunks(pcm, size, index, f)
    ensures Audio(events) == Audio(before) + pcm
  {
    hide Audio;
    hide ChunkCount;
    hide WellNumbered;
    hide ChunkFor;
    hide BytesPerSecond;
    hide Chunks;
    events, next := before, index;
    var offset := 0;
    assert pcm[0..] == pcm;
    while offset < |pcm|
      invariant 0 <= offset <= |pcm|
      invariant WellNumbered(events) && next == ChunkCount(events)
      invariant before <= events && Announced(events, size)
      invariant events + Chunks(pcm[offset..], size, next, f) == before + Chunks(pcm, size, index, f)
      invariant Audio(events) == Audio(before) + pcm[..offset]
    {
      var end := if offset + size <= |pcm| then offset + size else |pcm|;
      ChunksStep(pcm, offset, end, size, next, f);
      var event := ChunkFor(pcm[offset..end], next, f);
      Regroup(events, event, Chunks(pcm[end..], size, next + 1, f));
      Prefixes(Audio(before), pcm, offset, end);
      Published(events, event);
      events := events + [event];
      next := next + 1;
      offset := end;
    }
    assert pcm[..offset] == pcm;
    ChunksStep(pcm, offset, offset, size, next, f);
  }

  lemma Published(before: seq<Event>, e: Event)
    requires WellNumbered(before)
    requires e.Chunk? ==> && e.index == ChunkCount(before)
                          && Abs(e.durationMs * BytesPerSecond(e.format) - |e.data| * 1_000) <= BytesPerSecond(e.format)
    ensures WellNumbered(before + [e])
    ensures Audio(before + [e]) == Audio(before) + (if e.Chunk? then e.data else [])
    ensures ChunkCount(before + [e]) == ChunkCount(before) + (if e.Chunk? then 1 else 0)
  {
    assert (before + [e])[..|before|] == before;
  }

  /** Stream one unit; fails exactly when the unit cannot be spoken. */
  method SpeakUnit(before: seq<Event>, unit: seq<Synthesized>, index: nat, speaking: bool, settings: Settings, silenceMs: nat)
    returns (ok: bool, events: seq<Event>, next: nat)
    requires settings.Valid() && WellNumbered(before) && index == ChunkCount(before)
    requires Announced(before, settings.chunkBytes) && (speaking <==> before != [])
    ensures ok <==> Speakable(unit)
    ensures before <= events && Announced(events, settings.chunkBytes)
    ensures events != [] <==> speaking || (unit != [] && SupportedFormat(unit[0].format))
    ensures ok ==> events != []
    ensures WellNumbered(events) && next == ChunkCount(events)
    ensures ok ==> Audio(events) == Audio(before) + UnitAudio(unit, settings, silenceMs)
  {
    hide Audio;
    hide ChunkCount;
    hide WellNumbered;
    hide Chunks;
    hide Finished;
    hide Joined;
    hide Held;
    hide Aligned;
    hide Announced;
    events, next := before, index;
    if unit == [] {
      return false, events, next;
    }
    var f := unit[0].format;
    var tail: Pcm := [];
    ghost var ready: Pcm := [];
    NothingHeld(f, settings.fadeMs);
    JoinedStep(unit[..0]);
    for i := 0 to |unit|
      invariant WellNumbered(events) && next == ChunkCount(events)
      invariant forall j :: 0 <= j < i ==> unit[j].format == f && Aligned(unit[j].pcm, f.channels)
      invariant i > 0 ==> SupportedFormat(f) && events != []
      invariant i == 0 ==> events == before
      invariant before <= events && Announced(events, settings.chunkBytes)
      invariant Joined(unit[..i]) == ready + tail
      invariant Audio(events) == Audio(before) + ready
      invariant Held(ready, tail, f, settings.fadeMs)
    {
      var output := unit[i];
      assert unit[..i + 1][..i] == unit[..i] && unit[..i + 1][i] == output;
      if !SupportedFormat(output.format) || output.format != f {
        return false, events, next;
      }
      if i == 0 && !speaking {
        Published(events, Speaking);
        FirstAnnounced(settings.chunkBytes);
        assert events + [Speaking] == [Speaking];
        events := events + [Speaking];
      }
      if !Aligned(output.pcm, f.channels) {
        return false, events, next;
      }
      var out: Pcm;
      out, tail := HoldBack(tail, output.pcm, f, settings.fadeMs, ready);
      JoinedStep(unit[..i + 1]);
      events, next := PublishPcm(events, out, f, next, settings.chunkBytes);
      ready := ready + out;
    }
    assert unit[..|unit|] == unit;
    FinishHeld(ready, tail, f, settings.fadeMs, silenceMs);
    var aligned, last := FinishSpeechUnit(tail, f.rate, f.channels, settings.fadeMs, silenceMs);
    events, next := PublishPcm(events, last, f, next, settings.chunkBytes);
    ok := true;
  }

  /**
   * The whole reply: it succeeds exactly when every unit can be spoken, and then the chunks carry, under one
   * numbering, each unit's faded audio followed by its silence.
   */
  method Synthesize(units: seq<seq<Synthesized>>, settings: Settings) returns (ok: bool, events: seq<Event>)
    requires settings.Valid()
    ensures ok <==> forall i :: 0 <= i < |units| ==> Speakable(units[i])
    ensures ok <==> forall i :: 0 <= i < |units| ==>
                      && units[i] != [] && Uniform(units[i])
                      && 8_000 <= units[i][0].format.rate <= 192_000 && 1 <= units[i][0].format.channels <= 2
    ensures WellNumbered(events)
    ensures ok ==> Audio(events) == ReplyAudio(units, |units|, settings)
    ensures events != [] && events[|events| - 1] == End(if ok then "completed" else "failed")
    ensures Announced(events[..|events| - 1], settings.chunkBytes)
    ensures ok && units != [] ==> |events| > 1
  {
    hide Audio;
    hide ChunkCount;
    hide WellNumbered;
    hide UnitAudio;
    hide Uniform;
    events := [];
    var next := 0;
    NothingPublished();
    for i := 0 to |units|
      invariant WellNumbered(events) && next == ChunkCount(events)
      invariant forall j :: 0 <= j < i ==> Speakable(units[j])
      invariant Audio(events) == ReplyAudio(units, i, settings)
      invariant Announced(events, settings.chunkBytes) && (events != [] <==> i > 0)
    {
      var spoken: bool;
      spoken, events, next := SpeakUnit(events, units[i], next, i > 0, settings, SilenceAfter(i, |units|, settings));
      if !spoken {
        assert !Speakable(units[i]);
        assert (events + [End("failed")])[..|events|] == events;
        Published(events, End("failed"));
        return false, events + [End("failed")];
      }
    }
    assert (events + [End("completed")])[..|events|] == events;
    Published(events, End("completed"));
    return true, events + [End("completed")];
  }

  lemma NothingPublished()
    ensures WellNumbered([]) && ChunkCount([]) == 0 && Audio([]) == []
  {}

  /** The units' audio, each followed by the same silence. */
  function AllWith(units: seq<seq<Synthesized>>, settings: Settings, silenceMs: nat): Pcm
    requires forall i :: 0 <= i < |units| ==> Speakable(units[i])
  {
    if units == [] then [] else UnitAudio(units[0], settings, silenceMs) + AllWith(units[1..], settings, silenceMs)
  }

  lemma {:induction false} AllWithSnoc(units: seq<seq<Synthesized>>, last: seq<Synthesized>, settings: Settings, silenceMs: nat)
    requires (forall i :: 0 <= i < |units| ==> Speakable(units[i])) && Speakable(last)
    ensures forall i :: 0 <= i < |units + [last]| ==> Speakable((units + [last])[i])
    ensures AllWith(units + [last], settings, silenceMs)
            == AllWith(units, settings, silenceMs) + UnitAudio(last, settings, silenceMs)
    decreases |units|
  {
    hide Speakable, UnitAudio;
    if units == [] {
      assert [last][1..] == [] && units + [last] == [last];
    } else {
      AllWithSnoc(units[1..], last, settings, silenceMs);
      assert (units + [last])[1..] == units[1..] + [last];
    }
  }

  lemma {:induction false} EarlierUnits(units: seq<seq<Synthesized>>, n: nat, settings: Settings)
    requires n < |units| && forall i :: 0 <= i < |units| ==> Speakable(units[i])
    ensures ReplyAudio(units, n, settings) == AllWith(units[..n], settings, settings.unitSilenceMs)
    decreases n
  {
    hide Speakable, UnitAudio;
    if n > 0 {
      EarlierUnits(units, n - 1, settings);
      AllWithSnoc(units[..n - 1], units[n - 1], settings, settings.unitSilenceMs);
      assert units[..n] == units[..n - 1] + [units[n - 1]];
    }
  }

  /** Only the last unit of a reply is followed by the final silence. */
  lemma {:induction false} OnlyLastIsFinal(units: seq<seq<Synthesized>>, last: seq<Synthesized>, settings: Settings)
    requires (forall i :: 0 <= i < |units| ==> Speakable(units[i])) && Speakable(last)
    ensures forall i :: 0 <= i < |units + [last]| ==> Speakable((units + [last])[i])
    ensures ReplyAudio(units + [last], |units| + 1, settings)
            == AllWith(units, settings, settings.unitSilenceMs) + UnitAudio(last, settings, settings.finalSilenceMs)
  {
    hide Speakable, UnitAudio, AllWith;
    var all := units + [last];
    EarlierUnits(all, |units|, settings);
    assert all[..|units|] == units;
  }
}
