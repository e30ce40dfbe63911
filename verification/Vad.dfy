/** Voice activity detection by frame loudness: recording windows and noise tracking. */
module Vad {
  import opened Wrappers
  import opened Arithmetic

  /** A PCM frame with its root mean square, which no frame has below zero. */
  datatype Frame = Frame(pcm: seq<byte>, rms: real)

  datatype Config = Config(
    frameMs: nat, startSpeechMs: nat, endSilenceMs: nat, minimumSpeechMs: nat, prerollMs: nat,
    maximumMs: nat, startThreshold: real, endThreshold: real, initialNoise: real, alpha: real,
    startRatio: real, endRatio: real)
  {
    /** What the detector's own configuration checks. */
    predicate Valid() {
      && frameMs > 0 && 1000 % frameMs == 0
      && startSpeechMs > 0 && endSilenceMs > 0 && minimumSpeechMs > 0 && maximumMs > 0
      && endThreshold < startThreshold && 0.0 < alpha <= 1.0
    }

    /** What the bridge settings check as well. */
    predicate Checked() {
      0.0 <= endThreshold && 0.0 <= initialNoise && 0.0 < endRatio < startRatio
    }
  }

  function FrameBytes(cfg: Config): nat {
    16000 * cfg.frameMs / 1000 * 2
  }

  function PrerollFrames(cfg: Config): nat
    requires cfg.frameMs > 0
  {
    cfg.prerollMs / cfg.frameMs
  }

  function StartFrames(cfg: Config): nat
    requires cfg.frameMs > 0
  {
    Ceiling(cfg.startSpeechMs, cfg.frameMs)
  }

  function Duration(cfg: Config, frames: nat): nat {
    frames * cfg.frameMs
  }

  function StartLevel(cfg: Config, noise: real): real {
    var level := Times(noise, cfg.startRatio);
    if level > cfg.startThreshold then level else cfg.startThreshold
  }

  function EndLevel(cfg: Config, noise: real): real {
    var level := Times(noise, cfg.endRatio);
    if level > cfg.endThreshold then level else cfg.endThreshold
  }

  /** The noise floor follows quiet frames. */
  function Blend(cfg: Config, noise: real, rms: real): real {
    Times(1.0 - cfg.alpha, noise) + Times(cfg.alpha, rms)
  }

  datatype EndReason = Silence | MaxDuration | TooShort

  datatype Utterance = Utterance(frames: seq<Frame>, reason: EndReason, accepted: bool, speechMs: nat, durationMs: nat)

  datatype State = State(preroll: seq<Frame>, recording: seq<Frame>, active: bool, startRunMs: nat,
                         silenceMs: nat, speechMs: nat, noise: real)

  function Initial(cfg: Config): State {
    State([], [], false, 0, 0, 0, cfg.initialNoise)
  }

  /** The last frames of a sequence, at most `n` of them. */
  function Tail(frames: seq<Frame>, n: nat): seq<Frame> {
    if |frames| <= n then frames else frames[|frames| - n..]
  }

  function Complete(cfg: Config, s: State, reason: EndReason): (State, Utterance)
    requires cfg.frameMs > 0
  {
    var accepted := s.speechMs >= cfg.minimumSpeechMs;
    (State(Tail(s.recording, PrerollFrames(cfg)), [], false, 0, 0, 0, s.noise),
     Utterance(s.recording, if accepted then reason else TooShort, accepted, s.speechMs,
               Duration(cfg, |s.recording|)))
  }

  function Listen(cfg: Config, s: State, f: Frame): State
    requires cfg.frameMs > 0
  {
    var preroll := Tail(s.preroll + [f], PrerollFrames(cfg) + StartFrames(cfg));
    var loud := f.rms >= StartLevel(cfg, s.noise);
    var run := if loud then s.startRunMs + cfg.frameMs else 0;
    var noise := if loud then s.noise else Blend(cfg, s.noise, f.rms);
    if run >= cfg.startSpeechMs then State([], preroll, true, run, 0, run, noise)
    else s.(preroll := preroll, startRunMs := run, noise := noise)
  }

  function Record(cfg: Config, s: State, f: Frame): (State, Option<Utterance>)
    requires cfg.frameMs > 0
  {
    var recording := s.recording + [f];
    var loud := f.rms >= EndLevel(cfg, s.noise);
    var t := s.(recording := recording,
                speechMs := if loud then s.speechMs + cfg.frameMs else s.speechMs,
                silenceMs := if loud then 0 else s.silenceMs + cfg.frameMs);
    if Duration(cfg, |recording|) >= cfg.maximumMs then
      var (u, utterance) := Complete(cfg, t, MaxDuration);
      (u, Some(utterance))
    else if t.silenceMs >= cfg.endSilenceMs then
      var (u, utterance) := Complete(cfg, t, Silence);
      (u, Some(utterance))
    else (t, None)
  }

  /** A frame of the wrong size is refused and changes nothing. */
  function Process(cfg: Config, s: State, f: Frame): (State, Option<Utterance>)
    requires cfg.frameMs > 0
  {
    if |f.pcm| != FrameBytes(cfg) then (s, None)
    else if !s.active then (Listen(cfg, s, f), None)
    else Record(cfg, s, f)
  }

  function Finish(cfg: Config, s: State): (State, Option<Utterance>)
    requires cfg.frameMs > 0
  {
    if !s.active then (s.(preroll := [], startRunMs := 0), None)
    else
      var (t, utterance) := Complete(cfg, s, Silence);
      (t, Some(utterance))
  }

  class RmsVad {
    const cfg: Config
    const prerollFrames: nat
    const prerollCapacity: nat
    var preroll: seq<Frame>
    var recording: seq<Frame>
    var active: bool
    var startRunMs: nat
    var silenceMs: nat
    var speechMs: nat
    var noiseFloor: real

    ghost predicate Valid()
    {
      && cfg.frameMs > 0 && prerollFrames == PrerollFrames(cfg)
      && prerollCapacity == PrerollFrames(cfg) + StartFrames(cfg)
    }

    ghost function View(): State
      reads this
    {
      State(preroll, recording, active, startRunMs, silenceMs, speechMs, noiseFloor)
    }

    constructor (config: Config)
      requires config.Valid()
      ensures cfg == config && Valid() && View() == Initial(config)
    {
      cfg := config;
      prerollFrames := config.prerollMs / config.frameMs;
      prerollCapacity := config.prerollMs / config.frameMs + (config.startSpeechMs + config.frameMs - 1) / config.frameMs;
      preroll, recording, active := [], [], false;
      startRunMs, silenceMs, speechMs := 0, 0, 0;
      noiseFloor := config.initialNoise;
    }

    method CompleteUtterance(reason: EndReason) returns (utterance: Utterance)
      requires Valid()
      modifies this
      ensures (View(), utterance) == Complete(cfg, old(View()), reason)
    {
      var accepted := speechMs >= cfg.minimumSpeechMs;
      utterance := Utterance(recording, if accepted then reason else TooShort, accepted, speechMs,
                             |recording| * cfg.frameMs);
      preroll := if prerollFrames == 0 then []
                 else if |recording| <= prerollFrames then recording
                 else recording[|recording| - prerollFrames..];
      assert preroll == Tail(recording, prerollFrames);
      recording := [];
      active := false;
      startRunMs := 0;
      silenceMs := 0;
      speechMs := 0;
    }

    method RememberFrame(f: Frame)
      modifies this`preroll
      ensures preroll == Tail(old(preroll) + [f], prerollCapacity)
    {
      preroll := preroll + [f];
      if |preroll| > prerollCapacity {
        preroll := preroll[|preroll| - prerollCapacity..];
      }
    }

    method UpdateNoiseFloor(rms: real)
      modifies this`noiseFloor
      ensures noiseFloor == Blend(cfg, old(noiseFloor), rms)
    {
      noiseFloor := (1.0 - cfg.alpha) * noiseFloor + cfg.alpha * rms;
    }

    method ListenTo(f: Frame)
      requires Valid() && !active
      modifies this
      ensures View() == Listen(cfg, old(View()), f)
    {
      hide StartLevel, Blend, Tail, PrerollFrames, StartFrames;
      var startLevel := StartLevel(cfg, noiseFloor);
      RememberFrame(f);
      if f.rms >= startLevel {
        startRunMs := startRunMs + cfg.frameMs;
      } else {
        startRunMs := 0;
        UpdateNoiseFloor(f.rms);
      }
      if startRunMs >= cfg.startSpeechMs {
        active := true;
        recording := preroll;
        preroll := [];
        speechMs := startRunMs;
        silenceMs := 0;
      }
    }

    /** A frame of the wrong size is refused: the source raises an error. */
    method ProcessFrame(f: Frame) returns (accepted: bool, utterance: Option<Utterance>)
      requires Valid()
      modifies this
      ensures accepted <==> |f.pcm| == FrameBytes(cfg)
      ensures (View(), utterance) == Process(cfg, old(View()), f)
    {
      accepted, utterance := |f.pcm| == FrameBytes(cfg), None;
      if |f.pcm| != FrameBytes(cfg) {
        return;
      }
      if !active {
        ListenTo(f);
        return;
      }
      var endLevel := EndLevel(cfg, noiseFloor);
      recording := recording + [f];
      if f.rms >= endLevel {
        speechMs := speechMs + cfg.frameMs;
        silenceMs := 0;
      } else {
        silenceMs := silenceMs + cfg.frameMs;
      }
      if |recording| * cfg.frameMs >= cfg.maximumMs {
        var u := CompleteUtterance(MaxDuration);
        return true, Some(u);
      }
      if silenceMs >= cfg.endSilenceMs {
        var u := CompleteUtterance(Silence);
        return true, Some(u);
      }
    }

    method FinishStream() returns (utterance: Option<Utterance>)
      requires Valid()
      modifies this
      ensures (View(), utterance) == Finish(cfg, old(View()))
    {
      if !active {
        preroll := [];
        startRunMs := 0;
        return None;
      }
      var u := CompleteUtterance(Silence);
      return Some(u);
    }
  }

  // ----- Runs -----------------------------------------------------------------------------------

  datatype Event = Feed(frame: Frame) | End

  /** A detector with what an observer recorded: the frames taken so far, where among them the current
      or most recent run of loud frames began, and how many there were when recording last began. */
  datatype Run = Run(s: State, input: seq<Frame>, onset: nat, begun: nat)

  function Step(cfg: Config, r: Run, e: Event): (Run, Option<Utterance>)
    requires cfg.frameMs > 0
  {
    match e
    case End =>
      var (s, u) := Finish(cfg, r.s);
      (Run(s, r.input, |r.input|, r.begun), u)
    case Feed(f) =>
      var (s, u) := Process(cfg, r.s, f);
      if |f.pcm| != FrameBytes(cfg) then (r.(s := s), u)
      else
        var input := r.input + [f];
        var onset := if r.s.active then (if s.active then r.onset else |input|)
                     else if f.rms >= StartLevel(cfg, r.s.noise) then r.onset else |input|;
        (Run(s, input, onset, if s.active && !r.s.active then |input| else r.begun), u)
  }

  function RunOf(cfg: Config, events: seq<Event>): Run
    requires cfg.frameMs > 0
  {
    if events == [] then Run(Initial(cfg), [], 0, 0)
    else Step(cfg, RunOf(cfg, events[..|events| - 1]), events[|events| - 1]).0
  }

  predicate NonNegative(events: seq<Event>) {
    forall i :: 0 <= i < |events| && events[i].Feed? ==> events[i].frame.rms >= 0.0
  }

  /** The longest a recording gets before the frame that ends it. */
  function RecordingLimit(cfg: Config): nat
    requires cfg.frameMs > 0
  {
    var start := PrerollFrames(cfg) + StartFrames(cfg);
    var most := Ceiling(cfg.maximumMs, cfg.frameMs);
    if start + 1 > most then start else most - 1
  }

  predicate LoudFrom(cfg: Config, input: seq<Frame>, from: nat, to: nat, noise: real) {
    from <= to <= |input| && forall i :: from <= i < to ==> input[i].rms >= StartLevel(cfg, noise)
  }

  ghost predicate Inv(cfg: Config, r: Run)
    requires cfg.frameMs > 0
  {
    var n := |r.input|;
    && r.onset <= n && (cfg.initialNoise >= 0.0 ==> r.s.noise >= 0.0)
    && (!r.s.active ==>
          && r.s.recording == []
          && |r.s.preroll| <= PrerollFrames(cfg) + StartFrames(cfg)
          && |r.s.preroll| <= n && r.s.preroll == r.input[n - |r.s.preroll|..]
          && n - r.onset < StartFrames(cfg) && n - r.onset <= |r.s.preroll|
          && r.s.startRunMs == Duration(cfg, n - r.onset)
          && LoudFrom(cfg, r.input, r.onset, n, r.s.noise))
    && (r.s.active ==>
          && 0 < |r.s.recording| <= n && r.s.recording == r.input[n - |r.s.recording|..]
          && |r.s.recording| <= RecordingLimit(cfg)
          && n - |r.s.recording| <= r.onset && r.onset + StartFrames(cfg) <= n
          && LoudFrom(cfg, r.input, r.onset, r.onset + StartFrames(cfg), r.s.noise))
  }

  /** An utterance is the last frames of the input; it holds the whole run of loud frames that
      started it and is no longer than the configuration allows. */
  ghost predicate GoodUtterance(cfg: Config, input: seq<Frame>, onset: nat, noise: real, u: Utterance)
    requires cfg.frameMs > 0
  {
    var n := |input|;
    var most := Ceiling(cfg.maximumMs, cfg.frameMs);
    var start := PrerollFrames(cfg) + StartFrames(cfg) + 1;
    && |u.frames| <= n && u.frames == input[n - |u.frames|..]
    && n - |u.frames| <= onset && onset + StartFrames(cfg) <= n
    && LoudFrom(cfg, input, onset, onset + StartFrames(cfg), noise)
    && |u.frames| <= (if start > most then start else most)
  }

  lemma TailIsSuffix(input: seq<Frame>, k: nat, n: nat)
    requires k <= |input|
    ensures var t := Tail(input[|input| - k..], n);
      |t| == (if k <= n then k else n) && t == input[|input| - |t|..]
  {
  }

  lemma NoiseStays(cfg: Config, noise: real, rms: real)
    requires cfg.Valid() && noise >= 0.0 && rms >= 0.0
    ensures Blend(cfg, noise, rms) >= 0.0
  {
    TimesMonotone(1.0 - cfg.alpha, 0.0, noise);
    TimesMonotone(cfg.alpha, 0.0, rms);
  }

  lemma DurationReaches(cfg: Config, ms: nat, k: nat)
    requires cfg.Valid()
    ensures k < Ceiling(ms, cfg.frameMs) <==> Duration(cfg, k) < ms
    ensures Duration(cfg, 0) == 0 && Duration(cfg, k + 1) == Duration(cfg, k) + cfg.frameMs
  {
    CeilingReaches(ms, cfg.frameMs, k);
  }

  /** The loud run reaches the start time with exactly the frame that makes it long enough. */
  lemma RunReaches(cfg: Config, k: nat)
    requires cfg.Valid()
    ensures StartFrames(cfg) > 0
    ensures Duration(cfg, 0) == 0 && Duration(cfg, k + 1) == Duration(cfg, k) + cfg.frameMs
    ensures Duration(cfg, k + 1) >= cfg.startSpeechMs <==> k + 1 >= StartFrames(cfg)
  {
    hide Duration, Ceiling;
    DurationReaches(cfg, cfg.startSpeechMs, 0);
    DurationReaches(cfg, cfg.startSpeechMs, k);
    DurationReaches(cfg, cfg.startSpeechMs, k + 1);
  }

  lemma LoudGrows(cfg: Config, input: seq<Frame>, f: Frame, onset: nat, noise: real)
    requires LoudFrom(cfg, input, onset, |input|, noise) && f.rms >= StartLevel(cfg, noise)
    ensures LoudFrom(cfg, input + [f], onset, |input| + 1, noise)
  {
  }

  lemma LoudKept(cfg: Config, input: seq<Frame>, f: Frame, from: nat, to: nat, noise: real)
    requires LoudFrom(cfg, input, from, to, noise)
    ensures LoudFrom(cfg, input + [f], from, to, noise)
  {
  }

  lemma NothingLoudYet(cfg: Config, input: seq<Frame>, noise: real)
    ensures LoudFrom(cfg, input, |input|, |input|, noise)
  {
  }

  lemma ListenSound(cfg: Config, r: Run, f: Frame)
    requires cfg.Valid() && Inv(cfg, r) && !r.s.active && |f.pcm| == FrameBytes(cfg) && f.rms >= 0.0
    ensures Inv(cfg, Step(cfg, r, Feed(f)).0)
  {
    hide Times, StartLevel, Blend, PrerollFrames, StartFrames, FrameBytes, Ceiling, Duration, Tail;
    var n := |r.input|;
    var k := n - r.onset;
    var input := r.input + [f];
    var longer := r.s.preroll + [f];
    assert longer == input[|input| - |longer|..];
    TailIsSuffix(input, |longer|, PrerollFrames(cfg) + StartFrames(cfg));
    if f.rms >= StartLevel(cfg, r.s.noise) {
      LoudGrows(cfg, r.input, f, r.onset, r.s.noise);
    }
    hide LoudFrom;
    RunReaches(cfg, k);
    if r.s.noise >= 0.0 {
      NoiseStays(cfg, r.s.noise, f.rms);
    }
  }

  lemma RecordSound(cfg: Config, r: Run, f: Frame)
    requires cfg.Valid() && Inv(cfg, r) && r.s.active && |f.pcm| == FrameBytes(cfg)
    ensures var (t, u) := Step(cfg, r, Feed(f));
      Inv(cfg, t) && (u.Some? ==> GoodUtterance(cfg, t.input, r.onset, r.s.noise, u.value))
  {
    hide Times, StartLevel, EndLevel, PrerollFrames, StartFrames, FrameBytes, Ceiling, Duration, Tail;
    var input := r.input + [f];
    var recording := r.s.recording + [f];
    assert recording == input[|input| - |recording|..];
    LoudKept(cfg, r.input, f, r.onset, r.onset + StartFrames(cfg), r.s.noise);
    hide LoudFrom;
    TailIsSuffix(input, |recording|, PrerollFrames(cfg));
    DurationReaches(cfg, cfg.maximumMs, |recording|);
    RunReaches(cfg, 0);
    NothingLoudYet(cfg, input, r.s.noise);
  }

  lemma EndSound(cfg: Config, r: Run)
    requires cfg.Valid() && Inv(cfg, r)
    ensures var (t, u) := Step(cfg, r, End);
      Inv(cfg, t) && (u.Some? ==> GoodUtterance(cfg, t.input, r.onset, r.s.noise, u.value))
  {
    hide Times, StartLevel, PrerollFrames, StartFrames, Duration;
    RunReaches(cfg, 0);
    if r.s.active {
      TailIsSuffix(r.input, |r.s.recording|, PrerollFrames(cfg));
    }
  }

  lemma StepSound(cfg: Config, r: Run, e: Event)
    requires cfg.Valid() && Inv(cfg, r) && NonNegative([e])
    ensures var (t, u) := Step(cfg, r, e);
      Inv(cfg, t) && (u.Some? ==> GoodUtterance(cfg, t.input, r.onset, r.s.noise, u.value))
  {
    match e
    case End => EndSound(cfg, r);
    case Feed(f) =>
      assert [e][0] == e;
      if |f.pcm| == FrameBytes(cfg) {
        if r.s.active {
          RecordSound(cfg, r, f);
        } else {
          ListenSound(cfg, r, f);
        }
      }
  }

  lemma {:induction false} RunSound(cfg: Config, events: seq<Event>)
    requires cfg.Valid() && NonNegative(events)
    ensures Inv(cfg, RunOf(cfg, events))
    decreases |events|
  {
    RunReaches(cfg, 0);
    if events != [] {
      var n := |events| - 1;
      RunSound(cfg, events[..n]);
      StepSound(cfg, RunOf(cfg, events[..n]), events[n]);
    }
  }

  /** Every utterance of every run is a contiguous window of the input that ends with the current
      frame, holds the whole run of loud frames that started it, and has at most
      max(preroll + start + 1, ceil(maximum / frame)) frames. */
  lemma UtterancesAreWindows(cfg: Config, events: seq<Event>, e: Event)
    requires cfg.Valid() && NonNegative(events + [e])
    ensures var r := RunOf(cfg, events); var (t, u) := Step(cfg, r, e);
      u.Some? ==> GoodUtterance(cfg, t.input, r.onset, r.s.noise, u.value)
  {
    assert forall i :: 0 <= i < |events| ==> (events + [e])[i] == events[i];
    assert (events + [e])[|events|] == e;
    RunSound(cfg, events);
    StepSound(cfg, RunOf(cfg, events), e);
  }

  /** What the bridge settings demand of single fields; the order of the ratios is separate. */
  predicate InRange(cfg: Config) {
    0.0 <= cfg.endThreshold && 0.0 <= cfg.initialNoise && 0.0 < cfg.startRatio && 0.0 < cfg.endRatio
  }

  predicate LevelsOrdered(cfg: Config, noise: real) {
    EndLevel(cfg, noise) < StartLevel(cfg, noise)
  }

  /** The noise by itself does not lift the end level to the start threshold. */
  predicate Low(cfg: Config, noise: real) {
    Times(noise, cfg.endRatio) < cfg.startThreshold
  }

  /** A configuration at which no run makes the levels cross. */
  predicate KeepsOrder(cfg: Config) {
    cfg.endRatio < cfg.startRatio || (cfg.endRatio <= 1.0 && Low(cfg, cfg.initialNoise))
  }

  /** The level that ends speech stays below the level that starts it in every run if and only if
      the ratios are in order, as the bridge settings check and the detector does not, or the end
      ratio is at most one and the initial noise does not cross the levels by itself. */
  lemma HysteresisExactly(cfg: Config)
    requires cfg.Valid() && InRange(cfg)
    ensures (forall events :: NonNegative(events) ==> LevelsOrdered(cfg, RunOf(cfg, events).s.noise))
       <==> KeepsOrder(cfg)
  {
    hide LevelsOrdered;
    if KeepsOrder(cfg) {
      forall events | NonNegative(events) ensures LevelsOrdered(cfg, RunOf(cfg, events).s.noise) {
        OrderKept(cfg, events);
      }
    } else {
      var events := OrderLost(cfg);
      assert NonNegative(events) && !LevelsOrdered(cfg, RunOf(cfg, events).s.noise);
    }
  }

  lemma OrderKept(cfg: Config, events: seq<Event>)
    requires cfg.Valid() && InRange(cfg) && KeepsOrder(cfg) && NonNegative(events)
    ensures LevelsOrdered(cfg, RunOf(cfg, events).s.noise)
  {
    RunSound(cfg, events);
    hide RunOf, LevelsOrdered;
    if cfg.endRatio < cfg.startRatio {
      LevelsInOrder(cfg, RunOf(cfg, events).s.noise);
    } else {
      LowNoise(cfg, events);
      CrossedIff(cfg, RunOf(cfg, events).s.noise);
    }
  }

  lemma LevelsInOrder(cfg: Config, noise: real)
    requires 0.0 <= cfg.endThreshold < cfg.startThreshold && cfg.endRatio < cfg.startRatio && noise >= 0.0
    ensures LevelsOrdered(cfg, noise)
  {
    if noise == 0.0 {
      TimesCommutes(noise, cfg.endRatio);
    } else {
      TimesPositive(noise, cfg.startRatio - cfg.endRatio);
      TimesMinus(noise, cfg.startRatio, cfg.endRatio);
    }
    hide Times;
  }

  /** With ratios out of order the levels cross where the noise is no longer low. */
  lemma CrossedIff(cfg: Config, noise: real)
    requires cfg.Valid() && InRange(cfg) && cfg.startRatio <= cfg.endRatio && noise >= 0.0
    ensures LevelsOrdered(cfg, noise) <==> Low(cfg, noise)
  {
    TimesMonotone(noise, cfg.startRatio, cfg.endRatio);
    hide Times;
  }

  /** With an end ratio of at most one, frames quiet enough to be noise keep the noise low. */
  lemma {:induction false} LowNoise(cfg: Config, events: seq<Event>)
    requires cfg.Valid() && InRange(cfg) && NonNegative(events)
    requires cfg.startRatio <= cfg.endRatio <= 1.0 && Low(cfg, cfg.initialNoise)
    ensures Low(cfg, RunOf(cfg, events).s.noise)
    decreases |events|
  {
    hide Low, StartLevel, Blend;
    if events != [] {
      var (before, e) := (events[..|events| - 1], events[|events| - 1]);
      LowNoise(cfg, before);
      RunSound(cfg, before);
      var r := RunOf(cfg, before);
      assert r.s.noise >= 0.0;
      assert RunOf(cfg, events) == Step(cfg, r, e).0;
      StepNoise(cfg, r, e);
      hide Step, Inv, RunOf;
      if Step(cfg, r, e).0.s.noise != r.s.noise {
        QuietStaysLow(cfg, r.s.noise, e.frame.rms);
      }
    }
  }

  /** The noise floor only ever moves by blending in a frame below the start level. */
  lemma StepNoise(cfg: Config, r: Run, e: Event)
    requires cfg.frameMs > 0
    ensures var noise := Step(cfg, r, e).0.s.noise;
      noise != r.s.noise ==> e.Feed? && e.frame.rms < StartLevel(cfg, r.s.noise) && noise == Blend(cfg, r.s.noise, e.frame.rms)
  {
    hide StartLevel, EndLevel, Blend, Tail, PrerollFrames, StartFrames, Duration;
  }

  lemma QuietStaysLow(cfg: Config, noise: real, rms: real)
    requires cfg.Valid() && 0.0 < cfg.startRatio <= cfg.endRatio <= 1.0 && 0.0 <= noise && 0.0 <= rms
    requires Low(cfg, noise) && rms < StartLevel(cfg, noise)
    ensures Low(cfg, Blend(cfg, noise, rms))
  {
    TimesMonotone(noise, cfg.startRatio, cfg.endRatio);
    TimesMonotone(rms, cfg.endRatio, 1.0);
    TimesCommutes(rms, 1.0);
    WeightedScaled(cfg.alpha, noise, rms, cfg.endRatio);
    hide Times;
    MeanBelow(cfg.alpha, Times(noise, cfg.endRatio), Times(rms, cfg.endRatio), cfg.startThreshold);
  }

  // ----- When recording begins and ends ---------------------------------------------------------

  /** Number of frames at the end that are below the end level. */
  function QuietTail(cfg: Config, noise: real, frames: seq<Frame>): (n: nat)
    ensures n <= |frames|
  {
    if frames == [] || frames[|frames| - 1].rms >= EndLevel(cfg, noise) then 0
    else 1 + QuietTail(cfg, noise, frames[..|frames| - 1])
  }

  /** Number of frames that are not. */
  function LoudCount(cfg: Config, noise: real, frames: seq<Frame>): nat {
    if frames == [] then 0
    else LoudCount(cfg, noise, frames[..|frames| - 1])
         + if frames[|frames| - 1].rms >= EndLevel(cfg, noise) then 1 else 0
  }

  /** The frames since recording last began. */
  function Since(r: Run): seq<Frame> {
    if r.begun <= |r.input| then r.input[r.begun..] else []
  }

  /** While recording, the times kept are those of the frames since it began; the loud frames that
      began it count as speech. */
  ghost predicate Timed(cfg: Config, r: Run)
    requires cfg.frameMs > 0
  {
    r.s.active ==>
      && r.begun <= |r.input|
      && r.s.silenceMs == Duration(cfg, QuietTail(cfg, r.s.noise, Since(r)))
      && r.s.speechMs == Duration(cfg, StartFrames(cfg) + LoudCount(cfg, r.s.noise, Since(r)))
  }

  lemma OneMoreFrame(cfg: Config, noise: real, frames: seq<Frame>, f: Frame)
    ensures var loud := f.rms >= EndLevel(cfg, noise); var more := frames + [f];
      && QuietTail(cfg, noise, more) == (if loud then 0 else QuietTail(cfg, noise, frames) + 1)
      && LoudCount(cfg, noise, more) == LoudCount(cfg, noise, frames) + (if loud then 1 else 0)
  {
    hide EndLevel;
    var more := frames + [f];
    assert more[..|more| - 1] == frames && more[|more| - 1] == f;
  }

  lemma DurationGrows(cfg: Config, n: nat)
    ensures Duration(cfg, 0) == 0 && Duration(cfg, n + 1) == Duration(cfg, n) + cfg.frameMs
  {
  }

  /** In every run, an idle detector begins to record with a frame exactly if the frame is loud and
      makes the run of loud frames long enough; the recording is then the last frames, as many as
      there are of the preroll and the run. */
  lemma BeginsExactly(cfg: Config, events: seq<Event>, f: Frame)
    requires cfg.Valid() && NonNegative(events) && |f.pcm| == FrameBytes(cfg) && !RunOf(cfg, events).s.active
    ensures var r := RunOf(cfg, events); var t := Step(cfg, r, Feed(f)).0.s;
      && (t.active <==> f.rms >= StartLevel(cfg, r.s.noise) && |r.input| + 1 - r.onset >= StartFrames(cfg))
      && (t.active ==> t.recording == Tail(r.s.preroll + [f], PrerollFrames(cfg) + StartFrames(cfg))
                       && t.silenceMs == 0 && t.speechMs == Duration(cfg, StartFrames(cfg)))
  {
    RunSound(cfg, events);
    Begins(cfg, RunOf(cfg, events), f);
    hide RunOf, Step, Inv;
  }

  lemma Begins(cfg: Config, r: Run, f: Frame)
    requires cfg.Valid() && Inv(cfg, r) && |f.pcm| == FrameBytes(cfg) && !r.s.active
    ensures var t := Step(cfg, r, Feed(f)).0.s;
      && (t.active <==> f.rms >= StartLevel(cfg, r.s.noise) && |r.input| + 1 - r.onset >= StartFrames(cfg))
      && (t.active ==> t.recording == Tail(r.s.preroll + [f], PrerollFrames(cfg) + StartFrames(cfg))
                       && t.silenceMs == 0 && t.speechMs == Duration(cfg, StartFrames(cfg)))
      && (t.active ==> t.noise == r.s.noise)
  {
    RunReaches(cfg, |r.input| - r.onset);
    hide Times, StartLevel, Blend, PrerollFrames, StartFrames, FrameBytes, Ceiling, Duration, Tail, LoudFrom;
  }

  lemma StepTimed(cfg: Config, r: Run, e: Event)
    requires cfg.Valid() && Inv(cfg, r) && Timed(cfg, r)
    ensures Timed(cfg, Step(cfg, r, e).0)
  {
    hide Times, StartLevel, EndLevel, Blend, PrerollFrames, StartFrames, FrameBytes, Duration, Tail, LoudFrom;
    if e.Feed? && |e.frame.pcm| == FrameBytes(cfg) {
      if r.s.active {
        Ends(cfg, r, e.frame);
      } else {
        Begins(cfg, r, e.frame);
        DurationGrows(cfg, 0);
        var input := r.input + [e.frame];
        assert input[|input|..] == [];
      }
    }
  }

  /** What comes of the next frame of a recording is what the frames since it began call for. */
  ghost predicate EndsRight(cfg: Config, r: Run, f: Frame, u: Option<Utterance>)
    requires cfg.frameMs > 0
  {
    var since := Since(r) + [f];
    var tooLong := Duration(cfg, |r.s.recording| + 1) >= cfg.maximumMs;
    var quiet := Duration(cfg, QuietTail(cfg, r.s.noise, since)) >= cfg.endSilenceMs;
    var speechMs := Duration(cfg, StartFrames(cfg) + LoudCount(cfg, r.s.noise, since));
    && (u.Some? <==> tooLong || quiet)
    && (u.Some? ==>
          && u.value.accepted == (speechMs >= cfg.minimumSpeechMs) && u.value.speechMs == speechMs
          && u.value.reason == (if speechMs < cfg.minimumSpeechMs then TooShort else if tooLong then MaxDuration else Silence))
  }

  lemma Ends(cfg: Config, r: Run, f: Frame)
    requires cfg.Valid() && Timed(cfg, r) && |f.pcm| == FrameBytes(cfg) && r.s.active
    ensures var (t, u) := Step(cfg, r, Feed(f)); EndsRight(cfg, r, f, u) && Timed(cfg, t)
  {
    var before := Since(r);
    Recorded(cfg, r, f);
    RecordOutcome(cfg, r.s, f);
    assert Timed(cfg, r);
    hide Step, Since, Record, Times, StartLevel, EndLevel, StartFrames, FrameBytes, Duration, QuietTail, LoudCount;
    OneMoreFrame(cfg, r.s.noise, before, f);
    DurationGrows(cfg, QuietTail(cfg, r.s.noise, before));
    DurationGrows(cfg, StartFrames(cfg) + LoudCount(cfg, r.s.noise, before));
  }

  lemma Recorded(cfg: Config, r: Run, f: Frame)
    requires cfg.frameMs > 0 && |f.pcm| == FrameBytes(cfg) && r.s.active && r.begun <= |r.input|
    ensures var (t, u) := Step(cfg, r, Feed(f));
      (t.s, u) == Record(cfg, r.s, f) && Since(t) == Since(r) + [f] && t.begun <= |t.input|
  {
    assert (r.input + [f])[r.begun..] == r.input[r.begun..] + [f];
    hide Record, FrameBytes, StartLevel;
  }

  lemma RecordOutcome(cfg: Config, s: State, f: Frame)
    requires cfg.frameMs > 0 && s.active
    ensures var (t, u) := Record(cfg, s, f);
      var loud := f.rms >= EndLevel(cfg, s.noise);
      var speechMs := if loud then s.speechMs + cfg.frameMs else s.speechMs;
      var silenceMs := if loud then 0 else s.silenceMs + cfg.frameMs;
      var tooLong := Duration(cfg, |s.recording| + 1) >= cfg.maximumMs;
      && (u.Some? <==> tooLong || silenceMs >= cfg.endSilenceMs) && (t.active <==> u.None?) && t.noise == s.noise
      && (u.None? ==> t.speechMs == speechMs && t.silenceMs == silenceMs)
      && (u.Some? ==>
            && u.value.accepted == (speechMs >= cfg.minimumSpeechMs) && u.value.speechMs == speechMs
            && u.value.reason == (if speechMs < cfg.minimumSpeechMs then TooShort else if tooLong then MaxDuration else Silence))
  {
    hide EndLevel, Tail, PrerollFrames, Duration;
  }

  lemma {:induction false} RunTimed(cfg: Config, events: seq<Event>)
    requires cfg.Valid() && NonNegative(events)
    ensures Timed(cfg, RunOf(cfg, events))
    decreases |events|
  {
    hide Timed, Step, Inv;
    if events != [] {
      var before := events[..|events| - 1];
      RunTimed(cfg, before);
      RunSound(cfg, before);
      StepTimed(cfg, RunOf(cfg, before), events[|events| - 1]);
    } else {
      NothingTimed(cfg);
    }
  }

  lemma NothingTimed(cfg: Config)
    requires cfg.Valid()
    ensures Timed(cfg, RunOf(cfg, []))
  {
  }

  /** In every run, a recording ends with a frame exactly if it then has the longest duration or the
      frames at its end have been quiet for long enough. It is accepted exactly if the loud frames that
      began it and those since last long enough, and the reason says which of these held. */
  lemma EndsExactly(cfg: Config, events: seq<Event>, f: Frame)
    requires cfg.Valid() && NonNegative(events) && |f.pcm| == FrameBytes(cfg) && RunOf(cfg, events).s.active
    ensures var r := RunOf(cfg, events); EndsRight(cfg, r, f, Step(cfg, r, Feed(f)).1)
  {
    RunTimed(cfg, events);
    Ends(cfg, RunOf(cfg, events), f);
    hide RunOf, Step, EndsRight, Timed;
  }

  /** In every run, the end of the stream ends a recording in progress, as silence would, and otherwise
      yields nothing. */
  lemma StreamEndEndsRecording(cfg: Config, events: seq<Event>)
    requires cfg.Valid() && NonNegative(events)
    ensures var r := RunOf(cfg, events); var (t, u) := Step(cfg, r, End);
      && !t.s.active && (u.Some? <==> r.s.active)
      && (u.Some? ==>
            var speechMs := Duration(cfg, StartFrames(cfg) + LoudCount(cfg, r.s.noise, Since(r)));
            u.value.accepted == (speechMs >= cfg.minimumSpeechMs) && u.value.frames == r.s.recording)
  {
    RunTimed(cfg, events);
    hide RunOf, Tail, Duration, LoudCount, QuietTail, PrerollFrames, StartFrames;
  }

  /** The last frames of some, as many as asked for if there are so many. */
  ghost predicate AreLast(last: seq<Frame>, frames: seq<Frame>, most: nat) {
    && |last| <= |frames| && last == frames[|frames| - |last|..]
    && |last| == if |frames| <= most then |frames| else most
  }

  lemma TailIsLast(frames: seq<Frame>, most: nat)
    ensures AreLast(Tail(frames, most), frames, most)
  {
  }

  /** In every run, an idle detector keeps the newest frames for the next recording, as many as preroll
      and start need; a recording begins with just these, and leaves its own newest frames, as many
      as the preroll needs, to the next. */
  lemma PrerollIsKept(cfg: Config, events: seq<Event>, e: Event)
    requires cfg.Valid() && NonNegative(events)
    ensures var r := RunOf(cfg, events); var (t, u) := Step(cfg, r, e);
      && (e.Feed? && |e.frame.pcm| == FrameBytes(cfg) && !r.s.active ==>
            AreLast(if t.s.active then t.s.recording else t.s.preroll, r.s.preroll + [e.frame],
                    PrerollFrames(cfg) + StartFrames(cfg)))
      && (u.Some? ==> AreLast(t.s.preroll, u.value.frames, PrerollFrames(cfg)))
      && (e.Feed? && |e.frame.pcm| == FrameBytes(cfg) && u.Some? ==> u.value.frames == r.s.recording + [e.frame])
  {
    var r := RunOf(cfg, events);
    var most := PrerollFrames(cfg) + StartFrames(cfg);
    if e.Feed? {
      TailIsLast(r.s.preroll + [e.frame], most);
      TailIsLast(r.s.recording + [e.frame], PrerollFrames(cfg));
    } else {
      TailIsLast(r.s.recording, PrerollFrames(cfg));
    }
    hide RunOf, Tail, AreLast, Times, StartLevel, EndLevel, Blend, Duration, FrameBytes, PrerollFrames, StartFrames;
  }

  // ----- A run that makes the levels cross ------------------------------------------------------

  function Hum(cfg: Config, rms: real, n: nat): (events: seq<Event>)
    ensures |events| == n
    ensures forall i :: 0 <= i < n ==> events[i] == Feed(Frame(Zeros(FrameBytes(cfg)), rms))
  {
    seq(n, i => Feed(Frame(Zeros(FrameBytes(cfg)), rms)))
  }

  function Zeros(n: nat): (pcm: seq<byte>)
    ensures |pcm| == n
  {
    seq(n, i => 0)
  }

  /** A hum just below the start threshold is taken for noise and raises the floor by a fixed amount
      with every frame, until the end level has caught up. */
  lemma OrderLost(cfg: Config) returns (events: seq<Event>)
    requires cfg.Valid() && InRange(cfg) && !KeepsOrder(cfg)
    ensures NonNegative(events) && !LevelsOrdered(cfg, RunOf(cfg, events).s.noise)
  {
    hide Low, LevelsOrdered;
    if !Low(cfg, cfg.initialNoise) {
      events := [];
      CrossedIff(cfg, cfg.initialNoise);
    } else {
      hide RunOf;
      var goal := Goal(cfg);
      events := HumReaches(cfg, (goal + cfg.startThreshold) / 2.0, goal);
      ReachedCrosses(cfg, RunOf(cfg, events).s.noise, goal);
    }
  }

  /** The noise floor at which the end level reaches the start threshold. */
  lemma Goal(cfg: Config) returns (goal: real)
    requires cfg.startThreshold > 0.0 && cfg.endRatio > 1.0
    ensures Times(cfg.endRatio, goal) == cfg.startThreshold && 0.0 < goal < cfg.startThreshold
  {
    goal := cfg.startThreshold / cfg.endRatio;
    assert Times(cfg.endRatio, goal) == cfg.startThreshold;
    TimesCommutes(cfg.endRatio, 0.0);
    TimesCommutes(goal, cfg.endRatio - 1.0);
    TimesCommutes(cfg.endRatio, goal);
    TimesMinus(goal, cfg.endRatio, 1.0);
    TimesCommutes(goal, 1.0);
    hide Times;
    if goal <= 0.0 {
      TimesMonotone(cfg.endRatio, goal, 0.0);
    }
    TimesPositive(goal, cfg.endRatio - 1.0);
  }

  lemma ReachedCrosses(cfg: Config, noise: real, goal: real)
    requires cfg.Valid() && InRange(cfg) && cfg.startRatio <= cfg.endRatio
    requires 0.0 <= goal <= noise && Times(cfg.endRatio, goal) == cfg.startThreshold
    ensures !LevelsOrdered(cfg, noise)
  {
    TimesMonotone(cfg.endRatio, goal, noise);
    TimesCommutes(cfg.endRatio, noise);
    hide Times;
    CrossedIff(cfg, noise);
  }

  lemma Steps(rise: real, distance: real) returns (n: nat)
    requires rise > 0.0
    ensures Times(rise, n as real) >= distance
  {
    if distance <= 0.0 {
      n := 0;
    } else {
      var q := distance / rise;
      n := q.Floor + 1;
      assert n as real >= q && Times(rise, q) == distance;
      TimesMonotone(rise, q, n as real);
    }
  }

  /** Enough of the hum takes the noise floor to any goal below it. */
  lemma HumReaches(cfg: Config, rms: real, goal: real) returns (events: seq<Event>)
    requires cfg.Valid() && InRange(cfg) && 0.0 <= goal < rms < cfg.startThreshold
    ensures NonNegative(events) && RunOf(cfg, events).s.noise >= goal
  {
    hide Times, RunOf;
    var rise := Times(cfg.alpha, rms - goal);
    TimesPositive(cfg.alpha, rms - goal);
    var n := Steps(rise, goal - cfg.initialNoise);
    events := Hum(cfg, rms, n);
    HumRises(cfg, rms, goal, rise, n);
  }

  /** The noise floor has reached the goal or has risen by the given height. */
  predicate Risen(cfg: Config, noise: real, goal: real, height: real) {
    noise >= goal || noise >= cfg.initialNoise + height
  }

  lemma {:induction false} HumRises(cfg: Config, rms: real, goal: real, rise: real, n: nat)
    requires cfg.Valid() && InRange(cfg) && 0.0 <= goal < rms < cfg.startThreshold
    requires rise == Times(cfg.alpha, rms - goal)
    ensures var s := RunOf(cfg, Hum(cfg, rms, n)).s;
      !s.active && s.startRunMs == 0 && Risen(cfg, s.noise, goal, Times(rise, n as real))
    decreases n
  {
    hide Times;
    TimesCommutes(rise, 0.0);
    TimesCommutes(rise, 1.0);
    TimesMinus(rise, n as real, 1.0);
    if n > 0 {
      var events := Hum(cfg, rms, n);
      assert events[..n - 1] == Hum(cfg, rms, n - 1);
      HumRises(cfg, rms, goal, rise, n - 1);
      var r := RunOf(cfg, Hum(cfg, rms, n - 1));
      var quiet := Frame(Zeros(FrameBytes(cfg)), rms);
      QuietStep(cfg, r, quiet);
      assert RunOf(cfg, events) == Step(cfg, r, Feed(quiet)).0;
      hide Step, Zeros, RunOf, FrameBytes;
      MeanRises(cfg.alpha, r.s.noise, rms, goal);
      assert (n - 1) as real == n as real - 1.0;
    }
  }

  lemma QuietStep(cfg: Config, r: Run, f: Frame)
    requires cfg.Valid() && !r.s.active && r.s.startRunMs == 0
    requires |f.pcm| == FrameBytes(cfg) && f.rms < cfg.startThreshold
    ensures var s := Step(cfg, r, Feed(f)).0.s;
      !s.active && s.startRunMs == 0 && s.noise == Blend(cfg, r.s.noise, f.rms)
  {
    hide Blend, Tail, PrerollFrames, StartFrames, FrameBytes, Times;
  }

  /** One frame of a constant tone at 800 is enough to make the levels cross at these settings, all
      in their ranges: speech then starts at 1440 and any frame below 1600 counts as silence. */
  lemma LevelsCanCross(tone: Frame)
    requires |tone.pcm| == 640 && tone.rms == 800.0
    ensures var cfg := Config(20, 60, 650, 240, 360, 15000, 1000.0, 500.0, 50.0, 1.0, 1.8, 2.0);
      && cfg.Valid() && InRange(cfg)
      && RunOf(cfg, [Feed(tone)]).s.noise == 800.0
      && StartLevel(cfg, 800.0) == 1440.0 && EndLevel(cfg, 800.0) == 1600.0
  {
    var cfg := Config(20, 60, 650, 240, 360, 15000, 1000.0, 500.0, 50.0, 1.0, 1.8, 2.0);
    var start := RunOf(cfg, []);
    assert [Feed(tone)][..0] == [];
    assert FrameBytes(cfg) == 640;
    QuietStep(cfg, start, tone);
    assert Blend(cfg, 50.0, 800.0) == 800.0;
  }

  /** In every run the noise floor stays non-negative and the level that ends speech stays strictly
      below the level that starts it. */
  lemma LevelsKeepHysteresis(cfg: Config, events: seq<Event>)
    requires cfg.Valid() && cfg.Checked() && NonNegative(events)
    ensures var noise := RunOf(cfg, events).s.noise;
      noise >= 0.0 && EndLevel(cfg, noise) < StartLevel(cfg, noise)
  {
    hide StartLevel, EndLevel;
    RunSound(cfg, events);
    LevelsInOrder(cfg, RunOf(cfg, events).s.noise);
  }
}
