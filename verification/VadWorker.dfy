/** Endpoint detection over a stream of 16 kHz samples that arrives in arbitrary requests. */
module VadWorker {

  const FRAME_SAMPLES: nat := 512
  const MAX_STREAM_SAMPLES: nat := 16_000 * 120

  type Frame = seq<real>

  /**
   * The worker's configuration. The network is recurrent, so the probability it gives a frame is a function of
   * every frame fed to it so far, the current one last.
   */
  datatype Config = Config(
    threshold: real, negativeThreshold: real, minSpeech: nat, minSilence: nat, network: seq<Frame> -> real)
  {
    predicate Valid() {
      && 0.0 < negativeThreshold < threshold < 1.0
      && 16 * 32 <= minSpeech <= 16 * 5_000
      && 16 * 100 <= minSilence <= 16 * 2_000
    }
  }

  /** What a response is computed from. */
  datatype Counters = Counters(
    processed: nat, voiced: nat, silence: nat, started: bool, ended: bool, probability: real)

  const NOTHING_HEARD := Counters(0, 0, 0, false, false, 0.0)

  // -------------------------------------------------------------------------
  // Specification: the whole audio, frame by frame, whatever requests it came in
  // -------------------------------------------------------------------------

  function FrameAt(audio: seq<real>, k: nat): (f: Frame)
    requires (k + 1) * FRAME_SAMPLES <= |audio|
  {
    audio[k * FRAME_SAMPLES..(k + 1) * FRAME_SAMPLES]
  }

  function FirstFrames(audio: seq<real>, k: nat): (fs: seq<Frame>)
    requires k * FRAME_SAMPLES <= |audio|
    ensures |fs| == k
  {
    if k == 0 then [] else FirstFrames(audio, k - 1) + [FrameAt(audio, k - 1)]
  }

  /** The counters after one more frame was scored with `probability`. */
  function Scored(c: Counters, probability: real, cfg: Config): Counters {
    var processed := c.processed + FRAME_SAMPLES;
    if processed > MAX_STREAM_SAMPLES then
      c.(processed := processed, probability := probability, ended := true)
    else
      var voiced := if probability >= cfg.threshold then c.voiced + FRAME_SAMPLES else c.voiced;
      var started := c.started || probability >= cfg.threshold;
      var silence :=
        if c.started && probability < cfg.threshold && probability < cfg.negativeThreshold
        then c.silence + FRAME_SAMPLES
        else if probability >= cfg.threshold || c.started then 0
        else c.silence;
      Counters(processed, voiced, silence, started, voiced >= cfg.minSpeech && silence >= cfg.minSilence, probability)
  }

  /** The counters after the first `k` whole frames; nothing changes once the end of speech was found. */
  function Scan(audio: seq<real>, k: nat, cfg: Config): Counters
    requires k * FRAME_SAMPLES <= |audio|
  {
    if k == 0 then NOTHING_HEARD
    else
      var before := Scan(audio, k - 1, cfg);
      if before.ended then before else Scored(before, cfg.network(FirstFrames(audio, k)), cfg)
  }

  function WholeFrames(audio: seq<real>): (k: nat)
    ensures k * FRAME_SAMPLES <= |audio| < (k + 1) * FRAME_SAMPLES
  {
    |audio| / FRAME_SAMPLES
  }

  /** What the worker knows after hearing `audio`. */
  function Heard(audio: seq<real>, cfg: Config): Counters {
    Scan(audio, WholeFrames(audio), cfg)
  }

  lemma {:induction false} FramesOfPrefix(a: seq<real>, b: seq<real>, k: nat)
    requires k * FRAME_SAMPLES <= |a|
    ensures FirstFrames(a + b, k) == FirstFrames(a, k)
  {
    if k > 0 {
      FramesOfPrefix(a, b, k - 1);
      assert FrameAt(a + b, k - 1) == FrameAt(a, k - 1);
    }
  }

  lemma {:induction false} ScanOfPrefix(a: seq<real>, b: seq<real>, k: nat, cfg: Config)
    requires k * FRAME_SAMPLES <= |a|
    ensures Scan(a + b, k, cfg) == Scan(a, k, cfg)
  {
    if k > 0 {
      ScanOfPrefix(a, b, k - 1, cfg);
      FramesOfPrefix(a, b, k);
    }
  }

  lemma {:induction false} EndedStays(audio: seq<real>, j: nat, k: nat, cfg: Config)
    requires j <= k && k * FRAME_SAMPLES <= |audio|
    requires Scan(audio, j, cfg).ended
    ensures Scan(audio, k, cfg) == Scan(audio, j, cfg)
    decreases k - j
  {
    if j < k {
      EndedStays(audio, j, k - 1, cfg);
    }
  }

  /** Once speech has ended, later audio changes nothing that a response shows. */
  lemma {:induction false} EndIsFinal(a: seq<real>, b: seq<real>, cfg: Config)
    requires Heard(a, cfg).ended
    ensures Heard(a + b, cfg) == Heard(a, cfg)
  {
    ScanOfPrefix(a, b, WholeFrames(a), cfg);
    EndedStays(a + b, WholeFrames(a), WholeFrames(a + b), cfg);
  }

  // -------------------------------------------------------------------------
  // The worker's per-stream state
  // -------------------------------------------------------------------------

  class StreamState {
    const cfg: Config
    var pending: seq<real>
    var fed: seq<Frame>
    var counters: Counters
    ghost var audio: seq<real>  // everything received on this stream

    ghost predicate Valid()
      reads this
    {
      && counters == Heard(audio, cfg)
      && (!counters.ended ==>
            && fed == FirstFrames(audio, WholeFrames(audio))
            && pending == audio[WholeFrames(audio) * FRAME_SAMPLES..])
    }

    constructor (cfg: Config)
      ensures Valid() && audio == [] && this.cfg == cfg
    {
      this.cfg := cfg;
      pending, fed, counters, audio := [], [], NOTHING_HEARD, [];
    }

    /** The counter updates for one frame. */
    method Score(probability: real)
      requires !counters.ended
      modifies this`counters
      ensures counters == Scored(old(counters), probability, cfg)
    {
      counters := counters.(probability := probability, processed := counters.processed + FRAME_SAMPLES);
      if counters.processed > MAX_STREAM_SAMPLES {
        counters := counters.(ended := true);
        return;
      }
      if probability >= cfg.threshold {
        counters := counters.(started := true, voiced := counters.voiced + FRAME_SAMPLES, silence := 0);
      } else if counters.started && probability < cfg.negativeThreshold {
        counters := counters.(silence := counters.silence + FRAME_SAMPLES);
      } else if counters.started {
        counters := counters.(silence := 0);
      }
      if counters.voiced >= cfg.minSpeech && counters.silence >= cfg.minSilence {
        counters := counters.(ended := true);
      }
    }

    /** One analyze request: the response depends on all the audio received so far and on nothing else. */
    method Analyze(mono: seq<real>)
      requires Valid()
      modifies this
      ensures Valid()
      ensures audio == old(audio) + mono
      ensures counters == Heard(old(audio) + mono, cfg)
    {
      ghost var all := audio + mono;
      if counters.ended {
        EndIsFinal(audio, mono, cfg);
        audio := all;
        return;
      }
      ghost var k := WholeFrames(audio);
      FramesOfPrefix(audio, mono, k);
      ScanOfPrefix(audio, mono, k, cfg);
      pending := pending + mono;
      audio := all;
      assert pending == all[k * FRAME_SAMPLES..];
      while |pending| >= FRAME_SAMPLES
        invariant 0 <= k && k * FRAME_SAMPLES <= |all| && audio == all
        invariant pending == all[k * FRAME_SAMPLES..]
        invariant fed == FirstFrames(all, k)
        invariant counters == Scan(all, k, cfg) && !counters.ended
        decreases |pending|
      {
        var frame := pending[..FRAME_SAMPLES];
        pending := pending[FRAME_SAMPLES..];
        assert frame == FrameAt(all, k);
        fed := fed + [frame];
        k := k + 1;
        Score(cfg.network(fed));
        if counters.ended {
          break;
        }
      }
      if counters.ended {
        EndedStays(all, k, WholeFrames(all), cfg);
      }
    }
  }

  function Flatten(requests: seq<seq<real>>): seq<real> {
    if requests == [] then [] else Flatten(requests[..|requests| - 1]) + requests[|requests| - 1]
  }

  /** For every way of cutting the audio into requests, the final counters are those of the uncut audio. */
  method AnalyzeAll(requests: seq<seq<real>>, cfg: Config) returns (counters: Counters)
    ensures counters == Heard(Flatten(requests), cfg)
  {
    var stream := new StreamState(cfg);
    for i := 0 to |requests|
      invariant fresh(stream) && stream.Valid() && stream.cfg == cfg
      invariant stream.audio == Flatten(requests[..i])
    {
      assert requests[..i + 1][..i] == requests[..i];
      stream.Analyze(requests[i]);
    }
    assert requests[..|requests|] == requests;
    counters := stream.counters;
  }

  // -------------------------------------------------------------------------
  // What the counters mean
  // -------------------------------------------------------------------------

  function Probability(audio: seq<real>, k: nat, cfg: Config): real
    requires (k + 1) * FRAME_SAMPLES <= |audio|
  {
    cfg.network(FirstFrames(audio, k + 1))
  }

  function VoicedFrames(audio: seq<real>, k: nat, cfg: Config): nat
    requires k * FRAME_SAMPLES <= |audio|
  {
    if k == 0 then 0
    else VoicedFrames(audio, k - 1, cfg) + (if Probability(audio, k - 1, cfg) >= cfg.threshold then 1 else 0)
  }

  /** Are the last `n` of the first `k` frames all below the negative threshold, with speech before them? */
  ghost predicate TrailingSilence(audio: seq<real>, k: nat, n: nat, cfg: Config)
    requires k * FRAME_SAMPLES <= |audio|
  {
    n <= k && forall i :: k - n <= i < k ==> Probability(audio, i, cfg) < cfg.negativeThreshold
  }

  /** Is the frame before the last `n` of the first `k` frames not that quiet? */
  ghost predicate SilenceSince(audio: seq<real>, k: nat, n: nat, cfg: Config)
    requires k * FRAME_SAMPLES <= |audio|
  {
    n < k && Probability(audio, k - n - 1, cfg) >= cfg.negativeThreshold
  }

  /** Where the scan stopped: it looked at the first `n` frames and at no other. */
  ghost predicate StoppedAt(audio: seq<real>, n: nat, k: nat, cfg: Config)
    requires n <= k && k * FRAME_SAMPLES <= |audio|
  {
    && Scan(audio, k, cfg) == Scan(audio, n, cfg)
    && Scan(audio, n, cfg).processed == n * FRAME_SAMPLES
    && (n < k ==> Scan(audio, n, cfg).ended)
  }

  /** The voiced samples are those of the voiced frames among the first `n`. */
  ghost predicate VoicedMeans(audio: seq<real>, n: nat, c: Counters, cfg: Config)
    requires n * FRAME_SAMPLES <= |audio|
  {
    && c.voiced == VoicedFrames(audio, n, cfg) * FRAME_SAMPLES
    && (c.started <==> c.voiced > 0)
  }

  /** Once speech has started, the silent samples are those of all the quiet frames at the very end. */
  ghost predicate SilenceMeans(audio: seq<real>, n: nat, c: Counters, cfg: Config)
    requires n * FRAME_SAMPLES <= |audio|
  {
    && c.silence % FRAME_SAMPLES == 0
    && TrailingSilence(audio, n, c.silence / FRAME_SAMPLES, cfg)
    && (if c.started then SilenceSince(audio, n, c.silence / FRAME_SAMPLES, cfg) else c.silence == 0)
  }

  lemma VoicedStep(audio: seq<real>, k: nat, c: Counters, cfg: Config)
    requires cfg.Valid() && (k + 1) * FRAME_SAMPLES <= |audio|
    requires VoicedMeans(audio, k, c, cfg) && c.processed + FRAME_SAMPLES <= MAX_STREAM_SAMPLES
    ensures VoicedMeans(audio, k + 1, Scored(c, Probability(audio, k, cfg), cfg), cfg)
  {}

  lemma SilenceStep(audio: seq<real>, k: nat, c: Counters, cfg: Config)
    requires cfg.Valid() && (k + 1) * FRAME_SAMPLES <= |audio|
    requires SilenceMeans(audio, k, c, cfg) && c.processed + FRAME_SAMPLES <= MAX_STREAM_SAMPLES
    ensures SilenceMeans(audio, k + 1, Scored(c, Probability(audio, k, cfg), cfg), cfg)
  {
    var p, n := Probability(audio, k, cfg), c.silence / FRAME_SAMPLES;
    hide Probability;
    var next := Scored(c, p, cfg);
    if c.started && p < cfg.negativeThreshold {
      OneMoreFrame(c.silence);
    }
  }

  lemma OneMoreFrame(samples: nat)
    requires samples % FRAME_SAMPLES == 0
    ensures (samples + FRAME_SAMPLES) % FRAME_SAMPLES == 0
    ensures (samples + FRAME_SAMPLES) / FRAME_SAMPLES == samples / FRAME_SAMPLES + 1
  {}

  /**
   * The counters of a scan: a whole number of frames and at most one past the limit; below the limit the voiced
   * samples are those of the voiced frames and, once speech has started, the silent ones those of all the quiet frames at
   * the very end.
   */
  lemma {:induction false} CountersMean(audio: seq<real>, k: nat, cfg: Config) returns (n: nat)
    requires cfg.Valid() && k * FRAME_SAMPLES <= |audio|
    ensures n <= k && StoppedAt(audio, n, k, cfg)
    ensures var c := Scan(audio, k, cfg);
            && c.processed <= MAX_STREAM_SAMPLES + FRAME_SAMPLES == 1_920_512
            && (!c.ended ==> c.processed <= MAX_STREAM_SAMPLES && n == k)
            && (c.processed <= MAX_STREAM_SAMPLES ==>
                  VoicedMeans(audio, n, c, cfg) && SilenceMeans(audio, n, c, cfg))
            && (n > 0 ==> c.probability == Probability(audio, n - 1, cfg))
            && (c.ended ==>
                  || c.processed > MAX_STREAM_SAMPLES
                  || (c.voiced >= cfg.minSpeech && c.silence >= cfg.minSilence))
  {
    if k == 0 {
      n := 0;
    } else {
      n := CountersMean(audio, k - 1, cfg);
      var c := Scan(audio, k - 1, cfg);
      if !c.ended {
        n := k;
        if c.processed + FRAME_SAMPLES <= MAX_STREAM_SAMPLES {
          VoicedStep(audio, k - 1, c, cfg);
          SilenceStep(audio, k - 1, c, cfg);
        }
        hide VoicedMeans, SilenceMeans;
      }
    }
  }

  /** Speech ends exactly when the limit is passed or enough speech was followed by enough silence. */
  lemma {:induction false} EndOfSpeech(audio: seq<real>, cfg: Config)
    requires cfg.Valid()
    ensures var c := Heard(audio, cfg);
            c.ended <==>
              || c.processed > MAX_STREAM_SAMPLES
              || (c.voiced >= cfg.minSpeech && c.silence >= cfg.minSilence)
  {
    EndTest(audio, WholeFrames(audio), cfg);
  }

  lemma {:induction false} EndTest(audio: seq<real>, k: nat, cfg: Config)
    requires cfg.Valid() && k * FRAME_SAMPLES <= |audio|
    ensures var c := Scan(audio, k, cfg);
            c.ended <==>
              || c.processed > MAX_STREAM_SAMPLES
              || (c.voiced >= cfg.minSpeech && c.silence >= cfg.minSilence)
  {
    if k > 0 {
      EndTest(audio, k - 1, cfg);
    }
  }
}
