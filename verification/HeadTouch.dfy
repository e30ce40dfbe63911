/** Debouncing the head touch sensor and recognising press, swipe and release gestures. */
module HeadTouch {
  import opened Wrappers
  import opened Arithmetic

  datatype Transition = None_ | Pressed | Released

  /** Sample counts after the debouncer's own correction of zero to one. */
  datatype Counts = Counts(press: nat, release: nat)

  predicate ValidCounts(c: Counts) {
    0 < c.press < 256 && 0 < c.release < 256
  }

  datatype Debounce = Debounce(armed: bool, touched: bool, idle: nat, candidate: nat)

  const FRESH: Debounce := Debounce(false, false, 0, 0)

  function Settle(c: Counts, d: Debounce, raw: bool): (Debounce, Transition) {
    if !d.armed then
      if raw then (d.(idle := 0), None_)
      else (d.(idle := d.idle + 1, armed := d.idle + 1 >= c.release), None_)
    else if raw == d.touched then (d.(candidate := 0), None_)
    else
      var required := if raw then c.press else c.release;
      var candidate := if d.candidate < required then d.candidate + 1 else d.candidate;
      if candidate < required then (d.(candidate := candidate), None_)
      else if raw then (d.(touched := true, candidate := 0), Pressed)
      else (Debounce(false, false, 0, 0), Released)
  }

  class HeadTouchDebouncer {
    const pressSamples: nat
    const releaseSamples: nat
    var idleSamples: nat
    var candidateSamples: nat
    var armed: bool
    var stableTouched: bool

    ghost function Limits(): Counts { Counts(pressSamples, releaseSamples) }

    ghost function View(): Debounce
      reads this
    {
      Debounce(armed, stableTouched, idleSamples, candidateSamples)
    }

    /** The 8-bit counters never pass their limits, so they never wrap. */
    ghost predicate Valid()
      reads this
    {
      && ValidCounts(Limits())
      && (!armed ==> idleSamples < releaseSamples && !stableTouched && candidateSamples == 0)
      && (armed ==> candidateSamples < if stableTouched then releaseSamples else pressSamples)
      && idleSamples <= releaseSamples
    }

    constructor (press: byte, release: byte)
      ensures Valid() && View() == FRESH
      ensures Limits() == Counts(if press == 0 then 1 else press, if release == 0 then 1 else release)
    {
      pressSamples := if press == 0 then 1 else press;
      releaseSamples := if release == 0 then 1 else release;
      idleSamples, candidateSamples, armed, stableTouched := 0, 0, false, false;
    }

    method Update(touched: bool) returns (t: Transition)
      requires Valid()
      modifies this
      ensures Valid()
      ensures (View(), t) == Settle(Limits(), old(View()), touched)
    {
      if !armed {
        if touched {
          idleSamples := 0;
          return None_;
        }
        idleSamples := (idleSamples + 1) % 256;
        if idleSamples >= releaseSamples {
          armed := true;
        }
        return None_;
      }
      if touched == stableTouched {
        candidateSamples := 0;
        return None_;
      }
      var required := if touched then pressSamples else releaseSamples;
      if candidateSamples < required {
        candidateSamples := (candidateSamples + 1) % 256;
      }
      if candidateSamples < required {
        return None_;
      }
      stableTouched := touched;
      candidateSamples := 0;
      if !stableTouched {
        armed := false;
        idleSamples := 0;
      }
      return if stableTouched then Pressed else Released;
    }
  }

  // ----- Samples --------------------------------------------------------------------------------

  datatype Sample = Sample(front: byte, middle: byte, rear: byte)

  /** C++ integer division: toward zero. */
  function Truncated(a: int, b: nat): int
    requires b > 0
  {
    if a >= 0 then a / b else -((-a) / b)
  }

  lemma TruncatedBounds(a: int, b: nat)
    requires b > 0 && -100 * b <= a <= 100 * b
    ensures -100 <= Truncated(a, b) <= 100
  {
    QuotientAtMost(if a >= 0 then a else -a, b, 100);
  }

  /** Position between -100 and 100, so that differences fit 16 bits. */
  function Position(s: Sample): (p: int)
    ensures -100 <= p <= 100
  {
    var total := s.front as int + s.middle as int + s.rear as int;
    if total == 0 then 0
    else
      var weighted := -100 * s.front as int + 100 * s.rear as int;
      TruncatedBounds(weighted, total);
      Truncated(weighted, total)
  }

  /** The position is the weighted mean of -100, 0 and 100, rounded toward zero. */
  lemma PositionRoundsTowardZero(s: Sample)
    requires s.front as int + s.middle as int + s.rear as int > 0
    ensures var p := Position(s); var total := s.front as int + s.middle as int + s.rear as int;
      if s.rear >= s.front then p * total <= 100 * (s.rear - s.front) < (p + 1) * total
      else (p - 1) * total < 100 * (s.rear - s.front) <= p * total
  {
    var total: nat := s.front as int + s.middle as int + s.rear as int;
    var weighted := 100 * (s.rear - s.front);
    assert Position(s) == Truncated(weighted, total);
    TruncatedBrackets(weighted, total);
  }

  lemma TruncatedBrackets(a: int, b: nat)
    requires b > 0
    ensures var q := Truncated(a, b);
      if a >= 0 then q * b <= a < (q + 1) * b else (q - 1) * b < a <= q * b
  {
    var n := if a >= 0 then a else -a;
    var k := n / b;
    assert k * b <= n < k * b + b;
    assert (k + 1) * b == k * b + b;
    assert (0 - k) * b == 0 - k * b && (0 - k - 1) * b == 0 - k * b - b;
  }

  function MaxIntensity(s: Sample): (m: byte)
    ensures m == s.front || m == s.middle || m == s.rear
    ensures m >= s.front && m >= s.middle && m >= s.rear
  {
    var m := if s.middle > s.front then s.middle else s.front;
    if s.rear > m then s.rear else m
  }

  // ----- Gestures -------------------------------------------------------------------------------

  datatype Gesture = Press | SwipeForward | SwipeBackward | Release

  datatype TouchState = Idle | Touched | Swiping

  datatype Config = Config(touchThreshold: byte, swipeThreshold: int, counts: Counts)

  datatype Recognizer = Recognizer(debounce: Debounce, state: TouchState, initial: int)

  predicate RawTouched(cfg: Config, s: Sample) {
    MaxIntensity(s) >= cfg.touchThreshold
  }

  function Recognize(cfg: Config, r: Recognizer, s: Sample): (Recognizer, Option<Gesture>) {
    var raw := RawTouched(cfg, s);
    var (d, t) := Settle(cfg.counts, r.debounce, raw);
    match r.state
    case Idle =>
      if t.Pressed? then (Recognizer(d, Touched, Position(s)), Some(Press)) else (r.(debounce := d), None)
    case Touched =>
      if t.Released? then (Recognizer(d, Idle, r.initial), Some(Release))
      else if raw && d.touched then
        var delta := Position(s) - r.initial;
        if delta > cfg.swipeThreshold then (Recognizer(d, Swiping, r.initial), Some(SwipeForward))
        else if delta < -cfg.swipeThreshold then (Recognizer(d, Swiping, r.initial), Some(SwipeBackward))
        else (r.(debounce := d), None)
      else (r.(debounce := d), None)
    case Swiping =>
      if t.Released? then (Recognizer(d, Idle, r.initial), Some(Release)) else (r.(debounce := d), None)
  }

  class GestureRecognizer {
    const cfg: Config
    const debouncer: HeadTouchDebouncer
    var state: TouchState
    var initialPosition: int

    ghost function View(): Recognizer
      reads this, debouncer
    {
      Recognizer(debouncer.View(), state, initialPosition)
    }

    ghost predicate Valid()
      reads this, debouncer
    {
      debouncer.Valid() && cfg.counts == debouncer.Limits()
    }

    constructor (touchThreshold: byte, swipeThreshold: int, press: byte, release: byte)
      ensures Valid() && View() == Recognizer(FRESH, Idle, 0)
      ensures cfg.touchThreshold == touchThreshold && cfg.swipeThreshold == swipeThreshold
    {
      var d := new HeadTouchDebouncer(press, release);
      debouncer := d;
      cfg := Config(touchThreshold, swipeThreshold, Counts(d.pressSamples, d.releaseSamples));
      state, initialPosition := Idle, 0;
    }

    method Update(data: Sample) returns (gesture: Option<Gesture>)
      requires Valid()
      modifies this, debouncer
      ensures Valid()
      ensures (View(), gesture) == Recognize(cfg, old(View()), data)
    {
      gesture := None;
      var raw := MaxIntensity(data) >= cfg.touchThreshold;
      var transition := debouncer.Update(raw);
      match state
      case Idle =>
        if transition == Pressed {
          state := Touched;
          initialPosition := Position(data);
          gesture := Some(Press);
        }
      case Touched =>
        if transition == Released {
          state := Idle;
          gesture := Some(Release);
        } else if raw && debouncer.stableTouched {
          var delta := Position(data) - initialPosition;
          if delta > cfg.swipeThreshold {
            state := Swiping;
            gesture := Some(SwipeForward);
          } else if delta < -cfg.swipeThreshold {
            state := Swiping;
            gesture := Some(SwipeBackward);
          }
        }
      case Swiping =>
        if transition == Released {
          state := Idle;
          gesture := Some(Release);
        }
    }
  }

  // ----- Runs -----------------------------------------------------------------------------------

  /** A recogniser with what an observer recorded: the raw touch readings, the gestures, the number of
      samples up to and including the last release, and the position at the last press. */
  datatype Run = Run(r: Recognizer, raw: seq<bool>, gestures: seq<Gesture>, since: nat, pressed: int)

  const START: Run := Run(Recognizer(FRESH, Idle, 0), [], [], 0, 0)

  function Step(cfg: Config, run: Run, s: Sample): Run {
    var (r, gesture) := Recognize(cfg, run.r, s);
    var raw := run.raw + [RawTouched(cfg, s)];
    match gesture
    case None => run.(r := r, raw := raw)
    case Some(g) =>
      Run(r, raw, run.gestures + [g], if g == Release then |raw| else run.since,
          if g == Press then Position(s) else run.pressed)
  }

  function RunOf(cfg: Config, samples: seq<Sample>): Run {
    if samples == [] then START
    else Step(cfg, RunOf(cfg, samples[..|samples| - 1]), samples[|samples| - 1])
  }

  predicate AllFrom(raw: seq<bool>, from: nat, to: nat, value: bool) {
    from <= to <= |raw| && forall i :: from <= i < to ==> raw[i] == value
  }

  /** At least `release` consecutive idle samples between two points. */
  predicate Rested(c: Counts, raw: seq<bool>, from: nat, to: nat) {
    exists i: nat, j: nat :: j == i + c.release && from <= i && j <= to && AllFrom(raw, i, j, false)
  }

  /** The state that a gesture history leads to, if it is a history of presses, each followed by at
      most one swipe and then a release. */
  function Phase(gestures: seq<Gesture>): Option<TouchState> {
    if gestures == [] then Some(Idle)
    else
      var last := gestures[|gestures| - 1];
      match Phase(gestures[..|gestures| - 1])
      case None => None
      case Some(Idle) => if last == Press then Some(Touched) else None
      case Some(Touched) =>
        if last == Release then Some(Idle) else if last == Press then None else Some(Swiping)
      case Some(Swiping) => if last == Release then Some(Idle) else None
  }

  /** What the debouncer's counters say about the readings. */
  ghost predicate Counted(c: Counts, d: Debounce, raw: seq<bool>, since: nat) {
    var n := |raw|;
    && since <= n
    && (d.touched ==> d.armed)
    && (!d.armed ==>
          d.candidate == 0 && d.idle < c.release && since + d.idle <= n && AllFrom(raw, n - d.idle, n, false))
    && (d.armed ==>
          d.candidate <= n && d.candidate < (if d.touched then c.release else c.press)
          && AllFrom(raw, n - d.candidate, n, !d.touched))
    && (d.armed && !d.touched ==> Rested(c, raw, since, n - d.candidate))
    && Exact(c, d, raw, since)
  }

  /** The counters count all they should: while unarmed no rest was seen and the idle run is the whole
      of it; while armed the candidate run is the whole of it. */
  ghost predicate Exact(c: Counts, d: Debounce, raw: seq<bool>, since: nat) {
    var n := |raw|;
    && (!d.armed ==> d.idle + since == n || (d.idle + since < n && raw[n - 1 - d.idle]))
    && (!d.armed ==> !Rested(c, raw, since, n))
    && (d.armed ==> d.candidate < n && raw[n - 1 - d.candidate] == d.touched)
  }

  lemma AllFromLonger(raw: seq<bool>, from: nat, to: nat, value: bool, reading: bool)
    requires AllFrom(raw, from, to, value)
    ensures AllFrom(raw + [reading], from, to, value)
    ensures to == |raw| && reading == value ==> AllFrom(raw + [reading], from, to + 1, value)
  {
  }

  lemma AllFromShorter(raw: seq<bool>, from: nat, to: nat, value: bool, reading: bool)
    requires AllFrom(raw + [reading], from, to, value) && to <= |raw|
    ensures AllFrom(raw, from, to, value)
  {
    assert forall i :: from <= i < to ==> raw[i] == (raw + [reading])[i];
  }

  lemma RestedLonger(c: Counts, raw: seq<bool>, from: nat, to: nat, reading: bool)
    requires Rested(c, raw, from, to)
    ensures forall later: nat :: to <= later ==> Rested(c, raw + [reading], from, later)
  {
    var i: nat, j: nat :| j == i + c.release && from <= i && j <= to && AllFrom(raw, i, j, false);
    AllFromLonger(raw, i, j, false, reading);
    assert AllFrom(raw + [reading], i, j, false);
  }

  /** A transition is earned: a press by a run of touched samples after a rest since the last
      release, a release by a run of idle samples. */
  ghost predicate Earned(c: Counts, t: Transition, raw: seq<bool>, since: nat) {
    var n := |raw|;
    && (t.Pressed? ==> n >= c.press && AllFrom(raw, n - c.press, n, true) && Rested(c, raw, since, n - c.press))
    && (t.Released? ==> n >= c.release && AllFrom(raw, n - c.release, n, false))
  }

  lemma SettleExact(c: Counts, d: Debounce, raw: seq<bool>, since: nat, reading: bool)
    requires ValidCounts(c) && Counted(c, d, raw, since)
    ensures var (d', t) := Settle(c, d, reading);
      Exact(c, d', raw + [reading], if t.Released? then |raw| + 1 else since)
  {
    var n := |raw|;
    var longer := raw + [reading];
    var (d', t) := Settle(c, d, reading);
    if !d.armed && !d'.armed {
      forall i: nat, j: nat | j == i + c.release && since <= i && j <= n + 1 ensures !AllFrom(longer, i, j, false) {
        if j <= n {
          assert !AllFrom(raw, i, j, false);
          if AllFrom(longer, i, j, false) {
            AllFromShorter(raw, i, j, false, reading);
          }
        } else {
          assert longer[n] || (i <= n - 1 - d.idle && longer[n - 1 - d.idle]);
        }
      }
    }
  }

  lemma SettleSound(c: Counts, d: Debounce, raw: seq<bool>, since: nat, reading: bool)
    requires ValidCounts(c) && Counted(c, d, raw, since)
    ensures var (d', t) := Settle(c, d, reading);
      && Counted(c, d', raw + [reading], if t.Released? then |raw| + 1 else since)
      && Earned(c, t, raw + [reading], since)
      && (t.Pressed? ==> !d.touched && d'.touched) && (t.Released? ==> d.touched && !d'.touched)
      && (t.None_? ==> d'.touched == d.touched)
  {
    var n := |raw|;
    var longer := raw + [reading];
    SettleExact(c, d, raw, since, reading);
    hide Exact;
    if d.armed {
      AllFromLonger(raw, n - d.candidate, n, !d.touched, reading);
      if !d.touched {
        RestedLonger(c, raw, since, n - d.candidate, reading);
      }
    } else {
      AllFromLonger(raw, n - d.idle, n, false, reading);
      if !reading && d.idle + 1 == c.release {
        assert AllFrom(longer, n - d.idle, n + 1, false);
      }
    }
  }

  ghost predicate Inv(cfg: Config, run: Run) {
    && ValidCounts(cfg.counts)
    && Counted(cfg.counts, run.r.debounce, run.raw, run.since)
    && (run.r.state == Idle <==> !run.r.debounce.touched)
    && (run.r.state != Idle ==> run.r.initial == run.pressed)
    && Phase(run.gestures) == Some(run.r.state)
  }

  lemma StepSound(cfg: Config, run: Run, s: Sample)
    requires Inv(cfg, run)
    ensures Inv(cfg, Step(cfg, run, s))
    ensures var t := Settle(cfg.counts, run.r.debounce, RawTouched(cfg, s)).1;
      var g := Recognize(cfg, run.r, s).1;
      && (g == Some(Press) <==> t.Pressed?) && (g == Some(Release) <==> t.Released?)
      && Earned(cfg.counts, t, Step(cfg, run, s).raw, run.since)
  {
    hide Counted, Earned, Position, MaxIntensity;
    SettleSound(cfg.counts, run.r.debounce, run.raw, run.since, RawTouched(cfg, s));
    var t := Step(cfg, run, s);
    if |t.gestures| > |run.gestures| {
      assert t.gestures[..|run.gestures|] == run.gestures;
    }
  }

  lemma {:induction false} RunSound(cfg: Config, samples: seq<Sample>)
    requires ValidCounts(cfg.counts)
    ensures Inv(cfg, RunOf(cfg, samples))
    decreases |samples|
  {
    if samples == [] {
    } else {
      RunSound(cfg, samples[..|samples| - 1]);
      StepSound(cfg, RunOf(cfg, samples[..|samples| - 1]), samples[|samples| - 1]);
    }
  }

  /** Over every sample sequence the gestures are presses, each followed by at most one swipe and
      then a release; the recogniser is idle exactly when the debouncer is untouched. */
  lemma GesturesWellFormed(cfg: Config, samples: seq<Sample>)
    requires ValidCounts(cfg.counts)
    ensures var run := RunOf(cfg, samples);
      Phase(run.gestures) == Some(run.r.state) && (run.r.state == Idle <==> !run.r.debounce.touched)
  {
    RunSound(cfg, samples);
  }

  /** Over every sample sequence, the next sample is a press exactly if no touch is going on and the
      required touched samples in a row, this one the last, come after a rest since the last release.
      It is a release exactly if a touch is going on and it is the last of the required idle samples
      in a row. It is a swipe exactly if a touch that has not swiped is going on, the sample is
      touched, and its position is further from that of the press than the threshold allows. */
  lemma GesturesExactly(cfg: Config, samples: seq<Sample>, s: Sample)
    requires ValidCounts(cfg.counts)
    ensures var (press, release) := (cfg.counts.press, cfg.counts.release);
      var run := RunOf(cfg, samples); var g := Recognize(cfg, run.r, s).1;
      var raw := run.raw + [RawTouched(cfg, s)]; var n := |raw|;
      var phase := Phase(run.gestures);
      var moved := Position(s) - run.pressed;
      && (g == Some(Press) <==>
            phase == Some(Idle) && n >= press && AllFrom(raw, n - press, n, true) && Rested(cfg.counts, raw, run.since, n - press))
      && (g == Some(Release) <==>
            phase != Some(Idle) && n >= release && AllFrom(raw, n - release, n, false))
      && (g == Some(SwipeForward) <==>
            phase == Some(Touched) && RawTouched(cfg, s) && moved > cfg.swipeThreshold)
      && (g == Some(SwipeBackward) <==>
            phase == Some(Touched) && RawTouched(cfg, s) && moved <= cfg.swipeThreshold && moved < -cfg.swipeThreshold)
  {
    RunSound(cfg, samples);
    TouchesExactly(cfg, RunOf(cfg, samples), s);
    MovesExactly(cfg, RunOf(cfg, samples), s);
    hide RunOf, Phase, RawTouched, Position, Rested, AllFrom, Counted, Recognize;
  }

  lemma TouchesExactly(cfg: Config, run: Run, s: Sample)
    requires Inv(cfg, run)
    ensures var c := cfg.counts; var g := Recognize(cfg, run.r, s).1;
      var raw := run.raw + [RawTouched(cfg, s)]; var n := |raw|;
      && (g == Some(Press) <==>
            run.r.state == Idle && n >= c.press && AllFrom(raw, n - c.press, n, true) && Rested(c, raw, run.since, n - c.press))
      && (g == Some(Release) <==> run.r.state != Idle && n >= c.release && AllFrom(raw, n - c.release, n, false))
  {
    var raw := RawTouched(cfg, s);
    SettleSound(cfg.counts, run.r.debounce, run.raw, run.since, raw);
    SettleDue(cfg.counts, run.r.debounce, run.raw, run.since, raw);
    StepSound(cfg, run, s);
    hide RawTouched, Position, Rested, AllFrom, Counted, Recognize, Settle, Step, Phase;
  }

  lemma MovesExactly(cfg: Config, run: Run, s: Sample)
    requires Inv(cfg, run)
    ensures var g := Recognize(cfg, run.r, s).1; var moved := Position(s) - run.pressed;
      && (g == Some(SwipeForward) <==>
            run.r.state == Touched && RawTouched(cfg, s) && moved > cfg.swipeThreshold)
      && (g == Some(SwipeBackward) <==>
            run.r.state == Touched && RawTouched(cfg, s) && moved <= cfg.swipeThreshold && moved < -cfg.swipeThreshold)
  {
    SettleDue(cfg.counts, run.r.debounce, run.raw, run.since, RawTouched(cfg, s));
    hide Position, RawTouched, Counted, Phase;
  }

  ghost predicate PressDue(c: Counts, d: Debounce, raw: seq<bool>, since: nat) {
    var n := |raw|;
    !d.touched && n >= c.press && AllFrom(raw, n - c.press, n, true) && Rested(c, raw, since, n - c.press)
  }

  /** What is earned is given. */
  lemma SettleDue(c: Counts, d: Debounce, raw: seq<bool>, since: nat, reading: bool)
    requires ValidCounts(c) && Counted(c, d, raw, since)
    ensures var t := Settle(c, d, reading).1; var longer := raw + [reading]; var n := |longer|;
      && (PressDue(c, d, longer, since) ==> t.Pressed?)
      && (d.touched && n >= c.release && AllFrom(longer, n - c.release, n, false) ==> t.Released?)
      && (d.touched && reading ==> t.None_? && Settle(c, d, reading).0.touched)
  {
    var longer := raw + [reading];
    var n := |longer|;
    if PressDue(c, d, longer, since) {
      var i: nat, j: nat :| j == i + c.release && since <= i && j <= n - c.press && AllFrom(longer, i, j, false);
      AllFromShorter(raw, i, j, false, reading);
      assert AllFrom(raw, i, j, false);
      assert d.armed;
      assert longer[n - 1] && raw[|raw| - 1 - d.candidate] == longer[n - 2 - d.candidate];
    }
    if d.touched && n >= c.release && AllFrom(longer, n - c.release, n, false) {
      assert !longer[n - 1] && raw[|raw| - 1 - d.candidate] == longer[n - 2 - d.candidate];
    }
  }

  /** Every press follows `press` touched samples in a row, before which, since the last release,
      `release` idle samples in a row were seen; every release follows `release` idle samples. */
  lemma GesturesAreEarned(cfg: Config, samples: seq<Sample>, s: Sample)
    requires ValidCounts(cfg.counts)
    ensures var (press, release) := (cfg.counts.press, cfg.counts.release);
      var run := RunOf(cfg, samples); var t := RunOf(cfg, samples + [s]); var n := |t.raw|;
      && (t.gestures == run.gestures + [Press] ==>
            n >= press && AllFrom(t.raw, n - press, n, true) && t.since == run.since
            && Rested(cfg.counts, t.raw, run.since, n - press))
      && (t.gestures == run.gestures + [Release] ==>
            n >= release && AllFrom(t.raw, n - release, n, false) && t.since == n)
  {
    RunSound(cfg, samples);
    var run := RunOf(cfg, samples);
    assert (samples + [s])[..|samples|] == samples;
    StepSound(cfg, run, s);
    var t := RunOf(cfg, samples + [s]);
    if t.gestures != run.gestures {
      assert t.gestures[|run.gestures|] == Recognize(cfg, run.r, s).1.value;
    }
  }
}
