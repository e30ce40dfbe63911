/** What the heartbeat is for: a bridge that stops answering is given up after 45 seconds of true
    time, not earlier and not later than the first update from then on. */
module Heartbeats {
  import opened Wrappers
  import opened DeviceStates
  import opened Session
  import opened SessionRuns
  import Audio = AudioOutput

  const PONG_TIMEOUT_MS: nat := 45000

  /** The ping sent at true time `pinged` is still waited for. */
  predicate Waiting(s: State, pinged: nat) {
    && s.timers.heartbeat.armed && s.timers.heartbeat.started
    && s.timers.awaitingPong && s.timers.firstUnansweredPingAt == pinged % TICKS
  }

  /** Anything may happen but an answer to the ping or the end of the connection. */
  predicate Unanswering(e: Event) {
    e.Polled? ==> e.callback.Connected? || e.callback.Data?
  }

  predicate AllUnanswering(events: seq<Event>) {
    forall i :: 0 <= i < |events| ==> Unanswering(events[i])
  }

  /** A step that keeps an online session online, keeps a decision to reconnect, and leaves the
      heartbeat alone. */
  predicate Steady(s: State, t: State) {
    && Online(t.device) && (s.link.pending ==> t.link.pending)
    && t.timers.heartbeat == s.timers.heartbeat && t.timers.awaitingPong == s.timers.awaitingPong
    && t.timers.firstUnansweredPingAt == s.timers.firstUnansweredPingAt
  }

  // ----- Steady steps ---------------------------------------------------------------------------

  lemma HarmlessIsSteady(s: State, t: State)
    requires Online(s.device) && Harmless(s, t) && t.timers == s.timers
    ensures Steady(s, t)
  {
  }

  lemma AudioControlSteady(cfg: Config, s: State, control: AudioControl, io: DataIo)
    requires Agreement(s) && Online(s.device)
    ensures Steady(s, HandleAudioControl(cfg, s, control, io))
  {
    AudioControlHarmless(cfg, s, control, io);
    hide Harmless, Agreement, Audio.Start, Audio.Finish, Observe, Remembered;
    HarmlessIsSteady(s, HandleAudioControl(cfg, s, control, io));
  }

  lemma CommandSteady(cfg: Config, s: State, size: nat, command: Command, io: DataIo)
    requires Agreement(s) && Online(s.device)
    ensures Steady(s, HandleCommand(cfg, s, size, command, io).0)
  {
    var s1 := Remember(s, command.messageId);
    RememberHarmless(s, command.messageId);
    ExecuteHarmless(s1, command);
    hide Classify, Observe, Remembered;
  }

  lemma TextSteady(cfg: Config, s: State, text: Text, io: DataIo)
    requires Agreement(s) && Online(s.device)
    ensures Steady(s, HandleText(cfg, s, text, io).0)
  {
    if text.audio.Parsed? {
      AudioControlSteady(cfg, s, text.audio.value, io);
    }
    if text.remote.Parsed? {
      RemoteErrorHarmless(s, text.remote.value);
      HarmlessIsSteady(s, HandleRemoteError(s, text.remote.value));
    }
    if text.command.Parsed? {
      CommandSteady(cfg, s, text.size, text.command.value, io);
    }
    PeerErrorHarmless(cfg, s, io.peer);
    hide HandleAudioControl, HandleRemoteError, HandleCommand;
  }

  lemma DataSteady(cfg: Config, s: State, payload: Payload, io: DataIo)
    requires Agreement(s) && Online(s.device)
    ensures Steady(s, HandleData(cfg, s, payload, io).0)
  {
    hide HandleText;
    match payload
    case TextData(text) => TextSteady(cfg, s, text, io);
    case Binary(packet) => BinaryHarmless(cfg, s, packet, io.peer);
    case NullData(_) => PeerErrorHarmless(cfg, s, io.peer);
  }

  lemma CallSteady(cfg: Config, r: Run, e: Event)
    requires Agreement(r.s) && Online(r.s.device) && !e.Polled? && !e.Ticked?
    ensures Steady(r.s, Step(cfg, r, e).s)
  {
    CallHarmless(cfg, r, e);
    hide Harmless, Agreement, Audio.Deliver, Audio.AcknowledgePlayback;
    HarmlessIsSteady(r.s, Step(cfg, r, e).s);
  }

  lemma UntickedSteady(cfg: Config, r: Run, e: Event)
    requires Agreement(r.s) && Online(r.s.device) && Unanswering(e) && !e.Ticked?
    ensures Steady(r.s, Step(cfg, r, e).s) && Step(cfg, r, e).clock >= r.clock
  {
    if e.Polled? {
      hide HandleData;
      if e.callback.Data? {
        DataSteady(cfg, r.s, e.callback.payload, e.callback.io);
      }
    } else {
      CallSteady(cfg, r, e);
    }
  }

  // ----- Ticks ----------------------------------------------------------------------------------

  /** What comes before the heartbeat in an update leaves it alone, and what comes after as well. */
  lemma BeforeHeartbeatSteady(cfg: Config, s: State, now: u32, io: UpdateIo)
    requires Agreement(s) && Online(s.device)
    ensures var t := TickHandshake(TickInput(cfg, ReportBufferEvents(cfg, s, io), now, io.endInput), now);
      Steady(s, t) && Agreement(t)
  {
    var a := ReportBufferEvents(cfg, s, io);
    var b := TickInput(cfg, a, now, io.endInput);
    InputTimerHarmless(cfg, a, now, io.endInput);
    HandshakeTimerHarmless(b, now);
  }

  lemma AfterHeartbeatSteady(s: State, now: u32, io: ConnectIo)
    requires Online(s.device)
    ensures Steady(s, TickReconnect(TickStable(s, now), now, io))
  {
  }

  /** An update keeps waiting for the ping until 45 seconds of true time have passed, and gives the
      connection up from then on as long as the clock has not come around. */
  lemma TickWaits(cfg: Config, r: Run, io: UpdateIo, pinged: nat)
    requires Agreement(r.s) && Online(r.s.device) && pinged <= r.clock
    ensures var t := Step(cfg, r, Ticked(io));
      && Online(t.s.device) && t.clock == r.clock && (r.s.link.pending ==> t.s.link.pending)
      && (Waiting(r.s, pinged) && r.clock < pinged + PONG_TIMEOUT_MS ==> Waiting(t.s, pinged))
      && (Waiting(r.s, pinged) && pinged + PONG_TIMEOUT_MS <= r.clock < pinged + TICKS ==> t.s.link.pending)
      && (Waiting(r.s, pinged) ==> Waiting(t.s, pinged) || t.s.link.pending)
  {
    var now := r.clock % TICKS;
    var a := TickHandshake(TickInput(cfg, ReportBufferEvents(cfg, r.s, io), now, io.endInput), now);
    BeforeHeartbeatSteady(cfg, r.s, now, io);
    HeartbeatWaits(a, r.clock, pinged);
    AfterHeartbeatSteady(TickHeartbeat(a, now), now, io.connect);
    TickIsStep(cfg, r, io);
    TickKeepsTrace(cfg, r, io);
    hide TickHandshake, TickInput, ReportBufferEvents, TickReconnect, TickStable, TickHeartbeat, Step, Agreement;
  }

  /** The heartbeat's own part of an update. */
  lemma HeartbeatWaits(s: State, clock: nat, pinged: nat)
    requires Agreement(s) && Online(s.device) && pinged <= clock
    ensures var t := TickHeartbeat(s, clock % TICKS);
      && Online(t.device) && (s.link.pending ==> t.link.pending)
      && (Waiting(s, pinged) && clock < pinged + PONG_TIMEOUT_MS ==> Waiting(t, pinged))
      && (Waiting(s, pinged) && pinged + PONG_TIMEOUT_MS <= clock < pinged + TICKS ==> t.link.pending)
      && (Waiting(s, pinged) ==> Waiting(t, pinged) || t.link.pending)
  {
    ElapsedIsLowerBound(pinged, clock);
    hide Elapsed;
  }

  // ----- Runs -----------------------------------------------------------------------------------

  lemma {:induction false} WaitingRun(cfg: Config, r: Run, events: seq<Event>, pinged: nat)
    requires Inv(r) && Online(r.s.device) && pinged <= r.clock && AllUnanswering(events)
    requires Waiting(r.s, pinged) || r.s.link.pending
    ensures var t := StepAll(cfg, r, events);
      && Inv(t) && Online(t.s.device) && pinged <= r.clock <= t.clock
      && (Waiting(t.s, pinged) || t.s.link.pending) && (r.s.link.pending ==> t.s.link.pending)
      && (Waiting(r.s, pinged) && t.clock < pinged + PONG_TIMEOUT_MS ==> Waiting(t.s, pinged))
    decreases |events|
  {
    hide Inv, Step;
    if events != [] {
      var e := events[0];
      StepSound(cfg, r, e);
      InvAgrees(r);
      if e.Ticked? {
        TickWaits(cfg, r, e.io, pinged);
      } else {
        UntickedSteady(cfg, r, e);
      }
      assert AllUnanswering(events[1..]);
      WaitingRun(cfg, Step(cfg, r, e), events[1..], pinged);
    }
  }

  lemma InvAgrees(r: Run)
    requires Inv(r)
    ensures Agreement(r.s)
  {
  }

  /** The update that begins to wait for a pong does so while online, from that very moment. */
  lemma PingStartsWaiting(cfg: Config, r: Run, io: UpdateIo)
    requires Agreement(r.s) && !r.s.timers.awaitingPong && Step(cfg, r, Ticked(io)).s.timers.awaitingPong
    ensures var t := Step(cfg, r, Ticked(io)); Waiting(t.s, r.clock) && t.clock == r.clock && Online(t.s.device)
  {
    var now := r.clock % TICKS;
    var a := TickHandshake(TickInput(cfg, ReportBufferEvents(cfg, r.s, io), now, io.endInput), now);
    OfflineStays(cfg, r.s, now, io);
    TickIsStep(cfg, r, io);
    TickKeepsTrace(cfg, r, io);
    if Online(r.s.device) {
      BeforeHeartbeatSteady(cfg, r.s, now, io);
      AfterHeartbeatSteady(TickHeartbeat(a, now), now, io.connect);
    }
    hide TickHandshake, TickInput, ReportBufferEvents, TickReconnect, TickStable, Step, Agreement, Elapsed;
  }

  /** Without a connection no ping is sent. */
  lemma OfflineStays(cfg: Config, s: State, now: u32, io: UpdateIo)
    requires Agreement(s)
    ensures !Online(s.device) ==> Tick(cfg, s, now, io).timers.awaitingPong == s.timers.awaitingPong
  {
    hide EndInput;
  }

  /** In every run, let an update send the first ping that then stays unanswered. Whatever else
      happens while the connection lasts: before 45 seconds of true time have passed the session is
      still waiting, and an update from then on, before the 32-bit clock comes around, leaves the
      connection given up. */
  lemma SilentBridgeIsGivenUp(cfg: Config, prerollMs: int, clock: nat, past: seq<Event>, ping: UpdateIo,
                              since: seq<Event>, io: UpdateIo)
    requires AllUnanswering(since)
    requires var before := RunOf(cfg, prerollMs, clock, past);
      !before.s.timers.awaitingPong && Step(cfg, before, Ticked(ping)).s.timers.awaitingPong
    ensures var pinged := Step(cfg, RunOf(cfg, prerollMs, clock, past), Ticked(ping));
      var now := StepAll(cfg, pinged, since);
      && Online(now.s.device)
      && (now.clock - pinged.clock < PONG_TIMEOUT_MS ==> Waiting(now.s, pinged.clock))
      && (PONG_TIMEOUT_MS <= now.clock - pinged.clock < TICKS ==> Step(cfg, now, Ticked(io)).s.link.pending)
  {
    hide Inv, Step;
    BootSound(prerollMs, clock);
    RunSound(cfg, Start(prerollMs, clock), past);
    var before := RunOf(cfg, prerollMs, clock, past);
    InvAgrees(before);
    PingStartsWaiting(cfg, before, ping);
    StepSound(cfg, before, Ticked(ping));
    var pinged := Step(cfg, before, Ticked(ping));
    WaitingRun(cfg, pinged, since, pinged.clock);
    var now := StepAll(cfg, pinged, since);
    InvAgrees(now);
    TickWaits(cfg, now, io, pinged.clock);
  }
}
