/** What the client's timers bring about, in true time: a missing hello, an endless input, a stable
    connection and a due heartbeat are each noticed by the first update that finds them so. */
module SessionTimers {
  import opened Wrappers
  import opened DeviceStates
  import opened Session
  import opened SessionRuns
  import opened SessionProgress

  /** A timer that an update started at a true time. */
  predicate StartedAt(t: Timer, start: nat) {
    t.armed && t.started && t.startedAt == start % TICKS
  }

  /** Only time passing and updates whose polls deliver nothing. */
  predicate OnlyUpdates(events: seq<Event>) {
    forall i :: 0 <= i < |events| ==> events[i].Clock? || events[i].Ticked?
  }

  /** What one update does to each timer, by itself. */
  lemma TimersAfter(cfg: Config, s: State, now: u32, io: UpdateIo)
    ensures var t := Tick(cfg, s, now, io);
      && t.helloAck == s.helloAck
      && t.timers.handshake == TickHandshake(s, now).timers.handshake
      && t.timers.stable == TickStable(s, now).timers.stable
      && t.timers.heartbeat == TickHeartbeat(s, now).timers.heartbeat
      && t.timers.awaitingPong == TickHeartbeat(s, now).timers.awaitingPong
      && t.timers.firstUnansweredPingAt == TickHeartbeat(s, now).timers.firstUnansweredPingAt
  {
    InputLeavesTimers(cfg, s, now, io);
    var a := TickInput(cfg, ReportBufferEvents(cfg, s, io), now, io.endInput);
    var b := TickHandshake(a, now);
    HandshakeAlone(s, a, now);
    HeartbeatAlone(s, b, now);
    StableAlone(s, TickHeartbeat(b, now), now);
    AfterLeavesTimers(TickHeartbeat(b, now), now, io.connect);
    hide TickInput, ReportBufferEvents, TickHandshake, TickHeartbeat, TickStable, TickReconnect;
  }

  lemma HandshakeAlone(s: State, a: State, now: u32)
    requires a.timers == s.timers && a.helloAck == s.helloAck
    ensures var t := TickHandshake(a, now);
      t.timers == s.timers.(handshake := TickHandshake(s, now).timers.handshake) && t.helloAck == s.helloAck
  {
    hide Elapsed;
  }

  lemma HeartbeatAlone(s: State, b: State, now: u32)
    requires b.timers == s.timers.(handshake := b.timers.handshake) && b.helloAck == s.helloAck
    ensures TickHeartbeat(b, now).timers == TickHeartbeat(s, now).timers.(handshake := b.timers.handshake)
    ensures TickHeartbeat(b, now).helloAck == s.helloAck && TickHeartbeat(s, now).timers.stable == s.timers.stable
  {
    hide Elapsed;
  }

  lemma StableAlone(s: State, c: State, now: u32)
    requires c.timers.stable == s.timers.stable && c.helloAck == s.helloAck
    ensures TickStable(c, now).timers == c.timers.(stable := TickStable(s, now).timers.stable)
  {
    hide Elapsed;
  }

  lemma InputLeavesTimers(cfg: Config, s: State, now: u32, io: UpdateIo)
    ensures var t := TickInput(cfg, ReportBufferEvents(cfg, s, io), now, io.endInput);
      t.timers == s.timers && t.helloAck == s.helloAck
  {
  }

  lemma AfterLeavesTimers(s: State, now: u32, io: ConnectIo)
    ensures var t := TickReconnect(TickStable(s, now), now, io);
      t.helloAck == s.helloAck && t.timers == TickStable(s, now).timers
  {
  }

  /** A timer that is armed is started by the next update. */
  lemma UpdatesStartTimers(cfg: Config, r: Run, io: UpdateIo)
    ensures var (before, after) := (r.s.timers, Step(cfg, r, Ticked(io)).s.timers);
      && (before.handshake.armed && !before.handshake.started ==> StartedAt(after.handshake, r.clock))
      && (r.s.helloAck.Some? && before.stable.armed && !before.stable.started ==> StartedAt(after.stable, r.clock))
      && (r.s.helloAck.Some? && before.heartbeat.armed && !before.heartbeat.started ==> StartedAt(after.heartbeat, r.clock))
  {
    TickIsStep(cfg, r, io);
    TimersAfter(cfg, r.s, r.clock % TICKS, io);
    hide Tick, Step, Elapsed;
  }

  /** What holds of the handshake, stable and heartbeat timers until they run out. */
  predicate Running(r: Run, start: nat, interval: nat, handshake: bool, stable: bool, heartbeat: bool) {
    && (handshake ==> StartedAt(r.s.timers.handshake, start))
    && (stable ==> StartedAt(r.s.timers.stable, start) && r.s.helloAck.Some?)
    && (heartbeat ==> StartedAt(r.s.timers.heartbeat, start) && !r.s.timers.awaitingPong
                      && r.s.helloAck.Some? && r.s.helloAck.value.heartbeatIntervalMs == interval)
  }

  lemma RunningStep(cfg: Config, r: Run, e: Event, start: nat, interval: nat, handshake: bool, stable: bool, heartbeat: bool)
    requires Running(r, start, interval, handshake, stable, heartbeat) && start <= r.clock
    requires (e.Clock? || e.Ticked?)
    requires var clock := Step(cfg, r, e).clock;
      && (handshake ==> clock < start + 5000) && (stable ==> clock < start + 30000) && (heartbeat ==> clock < start + interval)
    ensures Running(Step(cfg, r, e), start, interval, handshake, stable, heartbeat)
    ensures Step(cfg, r, e).clock >= r.clock
  {
    if e.Ticked? {
      TickIsStep(cfg, r, e.io);
      TickKeepsTrace(cfg, r, e.io);
      TimersAfter(cfg, r.s, r.clock % TICKS, e.io);
      ElapsedIsLowerBound(start, r.clock);
      hide Tick, Step, Elapsed;
    }
  }

  lemma {:induction false} ClockGrows(cfg: Config, r: Run, events: seq<Event>)
    requires OnlyUpdates(events)
    ensures StepAll(cfg, r, events).clock >= r.clock
    decreases |events|
  {
    if events != [] {
      var e := events[0];
      if e.Ticked? {
        TickKeepsTrace(cfg, r, e.io);
      }
      hide Step;
      ClockGrows(cfg, Step(cfg, r, e), events[1..]);
    }
  }

  lemma {:induction false} RunningOn(cfg: Config, r: Run, events: seq<Event>, start: nat, interval: nat,
                                     handshake: bool, stable: bool, heartbeat: bool)
    requires Running(r, start, interval, handshake, stable, heartbeat) && start <= r.clock && OnlyUpdates(events)
    requires var clock := StepAll(cfg, r, events).clock;
      && (handshake ==> clock < start + 5000) && (stable ==> clock < start + 30000) && (heartbeat ==> clock < start + interval)
    ensures Running(StepAll(cfg, r, events), start, interval, handshake, stable, heartbeat)
    ensures StepAll(cfg, r, events).clock >= r.clock
    decreases |events|
  {
    hide Step, Running;
    if events != [] {
      var e := events[0];
      assert OnlyUpdates(events[1..]);
      ClockGrows(cfg, Step(cfg, r, e), events[1..]);
      RunningStep(cfg, r, e, start, interval, handshake, stable, heartbeat);
      RunningOn(cfg, Step(cfg, r, e), events[1..], start, interval, handshake, stable, heartbeat);
    }
  }

  lemma UpdateTicks(cfg: Config, r: Run, advance: nat, io: UpdateIo)
    ensures var s := r.s.(lastUpdateMs := (r.clock + advance) % TICKS);
      Later(cfg, r, advance, io).s == Tick(cfg, s, (r.clock + advance) % TICKS, io)
  {
    ClockMoves(cfg, r, advance);
    hide Step, Tick;
    TickIsStep(cfg, Step(cfg, r, Clock(advance)), io);
  }

  lemma ClockMoves(cfg: Config, r: Run, advance: nat)
    ensures Step(cfg, r, Clock(advance))
         == r.(clock := r.clock + advance, s := r.s.(lastUpdateMs := (r.clock + advance) % TICKS))
  {
  }

  /** A handshake that has run out makes an update give the connection up and draw a delay. */
  lemma HandshakeExpires(cfg: Config, s: State, now: u32, io: UpdateIo)
    requires s.timers.handshake.armed && s.timers.handshake.started && Elapsed(now, s.timers.handshake.startedAt) >= 5000
    ensures var t := Tick(cfg, s, now, io); t.link.pending && t.link.scheduled && !t.timers.handshake.armed
  {
    InputLeavesTimers(cfg, s, now, io);
    TimersAfter(cfg, s, now, io);
    var a := TickInput(cfg, ReportBufferEvents(cfg, s, io), now, io.endInput);
    GivenUpDraws(cfg, TickHandshake(a, now), now, io);
    hide TickInput, ReportBufferEvents, TickHeartbeat, TickStable, TickReconnect, Elapsed;
  }

  lemma GivenUpDraws(cfg: Config, s: State, now: u32, io: UpdateIo)
    requires s.link.pending && !s.link.scheduled
    ensures var t := TickReconnect(TickStable(TickHeartbeat(s, now), now), now, io.connect);
      t.link.pending && t.link.scheduled
  {
    hide Elapsed;
  }

  /** A client that waits for a hello goes on waiting for 5 seconds of true time, through any number of
      updates, and the first update after them gives the connection up and draws a delay. */
  lemma MissingHelloIsGivenUp(cfg: Config, r: Run, start: nat, events: seq<Event>, advance: nat, io: UpdateIo)
    requires StartedAt(r.s.timers.handshake, start) && start <= r.clock && OnlyUpdates(events)
    requires StepAll(cfg, r, events).clock < start + 5000
    ensures var t := StepAll(cfg, r, events); var u := Later(cfg, t, advance, io);
      && StartedAt(t.s.timers.handshake, start)
      && (start + 5000 <= t.clock + advance < start + TICKS ==>
            u.s.link.pending && u.s.link.scheduled && !u.s.timers.handshake.armed)
  {
    hide StepAll, Later, Step;
    RunningOn(cfg, r, events, start, 0, true, false, false);
    LateHello(cfg, StepAll(cfg, r, events), start, advance, io);
  }

  lemma LateHello(cfg: Config, t: Run, start: nat, advance: nat, io: UpdateIo)
    requires StartedAt(t.s.timers.handshake, start) && start <= t.clock
    ensures var u := Later(cfg, t, advance, io);
      start + 5000 <= t.clock + advance < start + TICKS ==>
        u.s.link.pending && u.s.link.scheduled && !u.s.timers.handshake.armed
  {
    hide Tick, Later, Step;
    var now := (t.clock + advance) % TICKS;
    UpdateTicks(cfg, t, advance, io);
    ElapsedIsLowerBound(start, t.clock + advance);
    hide Elapsed;
    if start + 5000 <= t.clock + advance < start + TICKS {
      HandshakeExpires(cfg, t.s.(lastUpdateMs := now), now, io);
    }
  }

  /** A connection that has been up for 30 seconds of true time makes the next delay drawn 1 second. */
  lemma StableConnectionResetsBackoff(cfg: Config, r: Run, start: nat, events: seq<Event>, advance: nat, io: UpdateIo)
    requires StartedAt(r.s.timers.stable, start) && r.s.helloAck.Some? && start <= r.clock && OnlyUpdates(events)
    requires StepAll(cfg, r, events).clock < start + 30000
    ensures var t := StepAll(cfg, r, events); var u := Later(cfg, t, advance, io);
      && StartedAt(t.s.timers.stable, start)
      && (start + 30000 <= t.clock + advance < start + TICKS ==>
            !u.s.timers.stable.armed && (u.s.link.nextDelay == 1 || (u.s.link.scheduled && u.s.link.delayMs == 1000)))
  {
    hide StepAll, Later, Step;
    RunningOn(cfg, r, events, start, 0, false, true, false);
    LongStable(cfg, StepAll(cfg, r, events), start, advance, io);
  }

  lemma LongStable(cfg: Config, t: Run, start: nat, advance: nat, io: UpdateIo)
    requires StartedAt(t.s.timers.stable, start) && t.s.helloAck.Some? && start <= t.clock
    ensures var u := Later(cfg, t, advance, io);
      start + 30000 <= t.clock + advance < start + TICKS ==>
        !u.s.timers.stable.armed && (u.s.link.nextDelay == 1 || (u.s.link.scheduled && u.s.link.delayMs == 1000))
  {
    hide Tick, Later, Step;
    var now := (t.clock + advance) % TICKS;
    UpdateTicks(cfg, t, advance, io);
    ElapsedIsLowerBound(start, t.clock + advance);
    hide Elapsed;
    if start + 30000 <= t.clock + advance < start + TICKS {
      StableExpires(cfg, t.s.(lastUpdateMs := now), now, io);
    }
  }

  lemma StableExpires(cfg: Config, s: State, now: u32, io: UpdateIo)
    requires s.timers.stable.armed && s.timers.stable.started && s.helloAck.Some?
    requires Elapsed(now, s.timers.stable.startedAt) >= 30000
    ensures var t := Tick(cfg, s, now, io);
      !t.timers.stable.armed && (t.link.nextDelay == 1 || (t.link.scheduled && t.link.delayMs == 1000))
  {
    InputLeavesTimers(cfg, s, now, io);
    var a := TickInput(cfg, ReportBufferEvents(cfg, s, io), now, io.endInput);
    var b := TickHandshake(a, now);
    HandshakeAlone(s, a, now);
    HeartbeatAlone(s, b, now);
    StableResets(TickHeartbeat(b, now), now, io.connect);
    hide TickInput, ReportBufferEvents, TickHandshake, TickHeartbeat, TickStable, TickReconnect, Elapsed;
  }

  lemma StableResets(s: State, now: u32, io: ConnectIo)
    requires s.timers.stable.armed && s.timers.stable.started && s.helloAck.Some?
    requires Elapsed(now, s.timers.stable.startedAt) >= 30000
    ensures var t := TickReconnect(TickStable(s, now), now, io);
      !t.timers.stable.armed && (t.link.nextDelay == 1 || (t.link.scheduled && t.link.delayMs == 1000))
  {
    hide Elapsed;
  }

  /** A heartbeat that is due is sent: after the agreed interval of true time, and not earlier, an
      update sends a ping and begins to wait for its answer. */
  lemma HeartbeatIsSent(cfg: Config, r: Run, start: nat, interval: u32, events: seq<Event>, advance: nat, io: UpdateIo)
    requires StartedAt(r.s.timers.heartbeat, start) && !r.s.timers.awaitingPong
    requires r.s.helloAck == Some(HelloAck(interval)) && start <= r.clock && OnlyUpdates(events)
    requires StepAll(cfg, r, events).clock < start + interval
    ensures var t := StepAll(cfg, r, events); var u := Later(cfg, t, advance, io);
      && StartedAt(t.s.timers.heartbeat, start) && !t.s.timers.awaitingPong
      && (start + interval <= t.clock + advance < start + TICKS ==>
            && u.s.timers.awaitingPong && u.s.timers.firstUnansweredPingAt == (t.clock + advance) % TICKS
            && StartedAt(u.s.timers.heartbeat, t.clock + advance))
  {
    hide StepAll, Later, Step, StartedAt, OnlyUpdates;
    RunningOn(cfg, r, events, start, interval, false, false, true);
    DueUpdate(cfg, StepAll(cfg, r, events), start, interval, advance, io);
  }

  lemma DueUpdate(cfg: Config, t: Run, start: nat, interval: nat, advance: nat, io: UpdateIo)
    requires Running(t, start, interval, false, false, true) && start <= t.clock
    ensures var u := Later(cfg, t, advance, io);
      start + interval <= t.clock + advance < start + TICKS ==>
        && u.s.timers.awaitingPong && u.s.timers.firstUnansweredPingAt == (t.clock + advance) % TICKS
        && StartedAt(u.s.timers.heartbeat, t.clock + advance)
  {
    hide Tick, Later, Step;
    var now := (t.clock + advance) % TICKS;
    UpdateTicks(cfg, t, advance, io);
    ElapsedIsLowerBound(start, t.clock + advance);
    hide Elapsed;
    if start + interval <= t.clock + advance < start + TICKS {
      HeartbeatIsDue(cfg, t.s.(lastUpdateMs := now), now, io);
    }
  }

  lemma HeartbeatIsDue(cfg: Config, s: State, now: u32, io: UpdateIo)
    requires s.timers.heartbeat.armed && s.timers.heartbeat.started && !s.timers.awaitingPong && s.helloAck.Some?
    requires Elapsed(now, s.timers.heartbeat.startedAt) >= s.helloAck.value.heartbeatIntervalMs
    ensures var t := Tick(cfg, s, now, io).timers;
      t.awaitingPong && t.firstUnansweredPingAt == now && t.heartbeat == Timer(true, true, now)
  {
    TimersAfter(cfg, s, now, io);
    hide Tick, Elapsed;
  }

  /** An answer ends the waiting. */
  lemma PongEndsWaiting(cfg: Config, r: Run)
    requires r.s.timers.heartbeat.armed
    ensures !Step(cfg, r, Polled(Pong)).s.timers.awaitingPong
  {
  }

  // ----- Audio input ----------------------------------------------------------------------------

  predicate Recording(s: State, start: nat) {
    s.input.open && s.device == Listening && StartedAt(s.input.timer, start)
  }

  lemma OnlyInputMoves(cfg: Config, s: State, now: u32, io: UpdateIo)
    ensures var (t, e) := (Tick(cfg, s, now, io), TickInput(cfg, s, now, io.endInput));
      t.input == e.input && t.device == e.device
  {
    var a := ReportBufferEvents(cfg, s, io);
    ReportsLeaveInput(cfg, s, now, io);
    var b := TickInput(cfg, a, now, io.endInput);
    OthersLeaveInput(b, now);
    var c := TickHeartbeat(TickHandshake(b, now), now);
    ReconnectLeavesInput(TickStable(c, now), now, io.connect);
    OthersLeaveInput(c, now);
    hide ReportBufferEvents, TickInput, TickHandshake, TickHeartbeat, TickStable, TickReconnect;
  }

  lemma ReportsLeaveInput(cfg: Config, s: State, now: u32, io: UpdateIo)
    ensures var (t, e) := (TickInput(cfg, ReportBufferEvents(cfg, s, io), now, io.endInput),
                           TickInput(cfg, s, now, io.endInput));
      t.input == e.input && t.device == e.device
  {
    hide ReportPending, Elapsed;
  }

  lemma OthersLeaveInput(s: State, now: u32)
    ensures var t := TickHeartbeat(TickHandshake(s, now), now); t.input == s.input && t.device == s.device
    ensures TickStable(s, now).input == s.input && TickStable(s, now).device == s.device
  {
    hide Elapsed;
  }

  lemma ReconnectLeavesInput(s: State, now: u32, io: ConnectIo)
    ensures TickReconnect(s, now, io).input == s.input && TickReconnect(s, now, io).device == s.device
  {
    hide Elapsed;
  }

  lemma {:induction false} RecordingOn(cfg: Config, r: Run, events: seq<Event>, start: nat)
    requires Recording(r.s, start) && start <= r.clock && OnlyUpdates(events)
    requires StepAll(cfg, r, events).clock < start + cfg.maxInputMs
    ensures Recording(StepAll(cfg, r, events).s, start) && StepAll(cfg, r, events).clock >= r.clock
    decreases |events|
  {
    if events != [] {
      var e := events[0];
      ClockGrows(cfg, Step(cfg, r, e), events[1..]);
      if e.Ticked? {
        TickIsStep(cfg, r, e.io);
        TickKeepsTrace(cfg, r, e.io);
        OnlyInputMoves(cfg, r.s, r.clock % TICKS, e.io);
        ElapsedIsLowerBound(start, r.clock);
      }
      assert Recording(Step(cfg, r, e).s, start) by { hide Tick, Elapsed; }
      hide Step, Recording;
      RecordingOn(cfg, Step(cfg, r, e), events[1..], start);
    }
  }

  /** An input goes on until the longest duration has passed, and the first update from then on ends
      it, if the end can be sent. */
  lemma LongInputIsEnded(cfg: Config, r: Run, start: nat, events: seq<Event>, advance: nat, io: UpdateIo)
    requires Recording(r.s, start) && start <= r.clock && OnlyUpdates(events) && cfg.hasEnvelope
    requires StepAll(cfg, r, events).clock < start + cfg.maxInputMs
    ensures var t := StepAll(cfg, r, events); var u := Later(cfg, t, advance, io);
      && Recording(t.s, start)
      && (start + cfg.maxInputMs <= t.clock + advance < start + TICKS && io.endInput == Sent ==>
            !u.s.input.open && u.s.device == Idle)
  {
    hide StepAll, Later, Step;
    RecordingOn(cfg, r, events, start);
    if io.endInput == Sent {
      LongInput(cfg, StepAll(cfg, r, events), start, advance, io);
    }
  }

  lemma LongInput(cfg: Config, t: Run, start: nat, advance: nat, io: UpdateIo)
    requires Recording(t.s, start) && start <= t.clock && cfg.hasEnvelope && io.endInput == Sent
    ensures var u := Later(cfg, t, advance, io);
      start + cfg.maxInputMs <= t.clock + advance < start + TICKS ==> !u.s.input.open && u.s.device == Idle
  {
    hide Tick, Later, Step;
    var now := (t.clock + advance) % TICKS;
    UpdateTicks(cfg, t, advance, io);
    ElapsedIsLowerBound(start, t.clock + advance);
    hide Elapsed;
    if start + cfg.maxInputMs <= t.clock + advance < start + TICKS {
      InputExpires(cfg, t.s.(lastUpdateMs := now), now, io);
    }
  }

  lemma InputExpires(cfg: Config, s: State, now: u32, io: UpdateIo)
    requires s.input.open && s.device == Listening && s.input.timer.armed && s.input.timer.started
    requires cfg.hasEnvelope && io.endInput == Sent && Elapsed(now, s.input.timer.startedAt) >= cfg.maxInputMs
    ensures var t := Tick(cfg, s, now, io); !t.input.open && t.device == Idle
  {
    OnlyInputMoves(cfg, s, now, io);
    hide Tick, Elapsed;
  }
}
