/** What the bridge session gets done: commands run, retries are answered, lost connections come back,
    streams start and end. Safety alone would be met by a session that does nothing. */
module SessionProgress {
  import opened Wrappers
  import opened DeviceStates
  import opened Session
  import opened SessionRuns
  import Audio = AudioOutput
  import Reconnect

  // ----- Commands -------------------------------------------------------------------------------

  /** A text that every other parser refuses and the command parser accepts. */
  predicate IsCommand(text: Text) {
    !text.cameraAck && !text.audio.Parsed? && !text.remote.Parsed? && text.command.Parsed?
  }

  /** What a polled text does to a run. */
  function Told(cfg: Config, r: Run, text: Text, io: DataIo): Run {
    Step(cfg, r, Polled(Data(TextData(text), io)))
  }

  lemma ToldCommand(cfg: Config, r: Run, text: Text, io: DataIo)
    requires Online(r.s.device) && IsCommand(text)
    ensures var (s, effects) := HandleCommand(cfg, r.s, text.size, text.command.value, io);
      Told(cfg, r, text, io) == r.(s := s, trace := r.trace + effects)
  {
    hide HandleCommand;
  }

  /** Cancelling speech runs for the turn that is playing, and, when none is, for the turn that was
      cancelled last; every other command runs always. */
  predicate MayRun(s: State, c: Command) {
    || c.name != SpeechCancel
    || (if s.output.active then s.output.stream.turnId == c.turnId else s.cancels.recentTurn == c.turnId)
  }

  /** In every run, a command is carried out when the session is online and can handle commands,
      nothing is pending, its request id is not cached, its message id is new and there is room: the
      handler runs, unless it cancels speech that is neither playing nor was cancelled last, and the
      result is then answered exactly if it was built and sent; otherwise the connection is given up. */
  lemma NewCommandIsCarriedOut(cfg: Config, prerollMs: int, clock: nat, events: seq<Event>, text: Text, io: DataIo)
    requires IsCommand(text) && cfg.hasHandler && cfg.hasEnvelope
    requires var s := RunOf(cfg, prerollMs, clock, events).s; var c := text.command.value;
      && Online(s.device) && !s.link.pending && c.messageId !in s.replay.seen
      && (forall k :: 0 <= k < |s.replay.cache| ==> s.replay.cache[k].command.requestId != c.requestId)
      && |s.replay.cache| < 256
      && s.replay.cacheBytes + text.size + cfg.entryBytes + 16384 <= 256 * 1024
    ensures var r := RunOf(cfg, prerollMs, clock, events); var c := text.command.value;
      var t := Told(cfg, r, text, io);
      var done := io.reply.Built? && io.reply.sent;
      && t.trace == r.trace + ((if MayRun(r.s, c) then [Ran(c)] else [])
                               + (if done then [Answered(c, io.reply.response)] else []))
      && (t.s.link.pending <==> !done)
      && (c.name == SpeechCancel && MayRun(r.s, c) ==> t.s.cancels.recentTurn == "")
  {
    var r := RunOf(cfg, prerollMs, clock, events);
    var c := text.command.value;
    ToldCommand(cfg, r, text, io);
    assert Classify(cfg, r.s, text.size, c) == New;
    CarriesOut(r.s, text.size + cfg.entryBytes, c, io.reply);
    hide Told, RunOf, Classify;
  }

  lemma CarriesOut(s: State, charged: nat, c: Command, reply: Reply)
    requires !s.link.pending
    ensures var (t, effects) := RunNew(s, charged, c, reply);
      var done := reply.Built? && reply.sent;
      && effects == (if MayRun(s, c) then [Ran(c)] else []) + (if done then [Answered(c, reply.response)] else [])
      && (t.link.pending <==> !done)
      && (c.name == SpeechCancel && MayRun(s, c) ==> t.cancels.recentTurn == "")
  {
    hide Remembered, Keep;
    assert forall e: seq<Effect> :: e + [] == e;
  }

  /** In every run, when an answer was sent since the last disconnect, a retry of the same content gets
      exactly the same bytes if they can be sent, and otherwise the connection is given up. */
  lemma RetryIsAnswered(cfg: Config, prerollMs: int, clock: nat, events: seq<Event>, i: nat, text: Text, io: DataIo)
    requires IsCommand(text) && cfg.hasHandler && cfg.hasEnvelope
    requires var r := RunOf(cfg, prerollMs, clock, events);
      i < |r.trace| && r.trace[i].Answered? && SameRequest(r.trace[i].command, text.command.value)
    ensures var r := RunOf(cfg, prerollMs, clock, events); var c := text.command.value;
      var t := Told(cfg, r, text, io);
      && t.trace == r.trace + (if io.replaySent then [Answered(c, r.trace[i].response)] else [])
      && (!io.replaySent ==> t.s.link.pending)
  {
    BootSound(prerollMs, clock);
    RunSound(cfg, Start(prerollMs, clock), events);
    var r := RunOf(cfg, prerollMs, clock, events);
    var (c, cache) := (text.command.value, r.s.replay.cache);
    var a := r.trace[i];
    assert AnsweredFrom(cache, a.command, a.response);
    var k :| 0 <= k < |cache| && SameRequest(cache[k].command, a.command) && cache[k].response == a.response;
    assert FindResult(cache, c.requestId) == k;
    assert Online(r.s.device);
    ToldCommand(cfg, r, text, io);
    assert Classify(cfg, r.s, text.size, c) == Retry(k);
    hide Told, RunOf, Inv;
  }

  /** In every run, other content under a cached request id is neither run nor answered, and is
      reported as a peer error. */
  lemma ReusedIdIsRefused(cfg: Config, prerollMs: int, clock: nat, events: seq<Event>, k: nat, text: Text, io: DataIo)
    requires IsCommand(text) && cfg.hasHandler && cfg.hasEnvelope
    requires var s := RunOf(cfg, prerollMs, clock, events).s; var c := text.command.value;
      && k < |s.replay.cache| && s.replay.cache[k].command.requestId == c.requestId
      && !SameRequest(s.replay.cache[k].command, c)
    ensures var r := RunOf(cfg, prerollMs, clock, events);
      var t := Told(cfg, r, text, io);
      && t.trace == r.trace
      && t.s == ReportPeerError(cfg, Remember(r.s, text.command.value.messageId), io.peer)
  {
    BootSound(prerollMs, clock);
    RunSound(cfg, Start(prerollMs, clock), events);
    var r := RunOf(cfg, prerollMs, clock, events);
    var (c, cache) := (text.command.value, r.s.replay.cache);
    assert FindResult(cache, c.requestId) == k;
    assert Online(r.s.device);
    ToldCommand(cfg, r, text, io);
    assert Classify(cfg, r.s, text.size, c) == Retry(k);
    assert r.trace + [] == r.trace;
    hide Told, RunOf, Inv, ReportPeerError;
  }

  // ----- Connections ----------------------------------------------------------------------------

  predicate IsHello(text: Text, ack: HelloAck) { text.hello == Some(ack) }

  /** Online from a hello on: the acknowledgement is held, the handshake is over, and the clocks of a
      stable connection and of the heartbeat start with the next update. */
  predicate CameUp(s: State, ack: HelloAck) {
    && s.device == Idle && s.helloAck == Some(ack) && !s.timers.handshake.armed
    && s.timers.stable.armed && !s.timers.stable.started
    && s.timers.heartbeat.armed && !s.timers.heartbeat.started
  }

  /** A client that waits for a hello gets it once the link is up and the bridge sends one. */
  lemma HelloBringsUp(cfg: Config, r: Run, text: Text, ack: HelloAck, io: DataIo)
    requires r.s.device == ConnectingBridge && IsHello(text, ack)
    ensures var linked := Step(cfg, r, Polled(Connected(true)));
      && linked.s == r.s.(timers := r.s.timers.(handshake := Timer(true, false, r.s.timers.handshake.startedAt)))
      && CameUp(Told(cfg, linked, text, io).s, ack)
  {
  }

  /** From power-up, good configuration, Wi-Fi, a link and a hello bring the client online. */
  lemma PowerUpComesOnline(cfg: Config, prerollMs: int, clock: nat, text: Text, ack: HelloAck, io: DataIo)
    requires IsHello(text, ack)
    ensures var s0 := Step(cfg, Start(prerollMs, clock), Initialized(true));
      var s1 := Step(cfg, s0, WifiReady(ConnectStarted));
      var linked := Step(cfg, s1, Polled(Connected(true)));
      !s1.s.link.pending && CameUp(Told(cfg, linked, text, io).s, ack)
  {
    var s0 := Step(cfg, Start(prerollMs, clock), Initialized(true));
    HelloBringsUp(cfg, Step(cfg, s0, WifiReady(ConnectStarted)), text, ack, io);
    hide Told;
  }

  /** In every state, a first connect and a reconnect are attempted exactly where they belong, and leave
      a reconnect pending exactly if they fail. */
  lemma ConnectsWherePossible(cfg: Config, r: Run, connect: ConnectIo)
    ensures var t := Step(cfg, r, WifiReady(connect));
      if r.s.device == ConnectingWifi
      then t.s.device == ConnectingBridge && (t.s.link.pending <==> connect != ConnectStarted) && !t.s.link.scheduled
      else t == r
    ensures var t := Step(cfg, r, ReconnectAsked(connect));
      if r.s.device == ConnectingBridge
      then t.s.device == ConnectingBridge && (t.s.link.pending <==> connect != ConnectStarted)
      else t == r
  {
  }

  /** A hello that cannot be sent when the link comes up leaves a reconnect pending, and no handshake to
      wait for. */
  lemma UnsentHelloIsGivenUp(cfg: Config, r: Run)
    ensures var t := Step(cfg, r, Polled(Connected(false))); t.s.link.pending && t.s.timers == r.s.timers
  {
  }

  /** The acknowledgement of a camera report changes nothing. */
  lemma CameraAckIsHarmless(cfg: Config, r: Run, text: Text, io: DataIo)
    requires Online(r.s.device) && text.cameraAck
    ensures Told(cfg, r, text, io) == r
  {
    assert r.trace + [] == r.trace;
  }

  /** An update of a client that waits to reconnect. */
  function Later(cfg: Config, r: Run, advance: nat, io: UpdateIo): Run {
    Step(cfg, Step(cfg, r, Clock(advance)), Ticked(io))
  }

  /** A client without a connection and without timers running. */
  predicate Down(s: State) {
    && s.device == ConnectingBridge && s.helloAck.None? && !s.input.timer.armed
    && !s.timers.handshake.armed && !s.timers.heartbeat.armed && !s.timers.stable.armed
  }

  lemma DownTick(cfg: Config, s: State, now: u32, io: UpdateIo)
    requires Down(s)
    ensures TickTimers(cfg, s, now, io) == s && TickStable(s, now) == s && !StableReached(s, now)
  {
  }

  /** An update of a disconnected client whose reconnect is pending but not scheduled draws a delay. */
  lemma DownDraws(cfg: Config, r: Run, advance: nat, io: UpdateIo)
    requires Down(r.s) && r.s.link.pending && !r.s.link.scheduled
    ensures var t := Later(cfg, r, advance, io);
      && Down(t.s) && t.s.link.pending && t.s.link.scheduled && t.attempts == r.attempts
      && t.draws == r.draws + [r.s.link.nextDelay] && t.drawnAt == t.clock == r.clock + advance
      && t.s.link.scheduledAt == t.clock % TICKS && t.s.link.delayMs == r.s.link.nextDelay * 1000
  {
    var c := Step(cfg, r, Clock(advance));
    DownTick(cfg, c.s, c.clock % TICKS, io);
    hide TickTimers, TickStable;
  }

  /** Once the drawn delay has passed, an update connects. */
  lemma DownConnects(cfg: Config, r: Run, advance: nat, io: UpdateIo)
    requires Down(r.s) && r.s.link.pending && r.s.link.scheduled && r.drawnAt == r.clock
    requires r.s.link.scheduledAt == r.clock % TICKS && r.s.link.delayMs <= advance < TICKS
    ensures var t := Later(cfg, r, advance, io);
      && Down(t.s) && |t.attempts| == |r.attempts| + 1 && !t.s.link.scheduled
      && (t.s.link.pending <==> io.connect != ConnectStarted)
  {
    var c := Step(cfg, r, Clock(advance));
    DownTick(cfg, c.s, c.clock % TICKS, io);
    ElapsedIsLowerBound(r.clock, c.clock);
    hide TickTimers, TickStable, Elapsed;
  }

  /** In every run, a connection that is lost while online comes back: the next update draws a delay
      from the table, an update after that delay connects, and when the link comes up and the bridge
      sends a hello the client is online again. If the connect fails, the next update draws again. */
  lemma LostConnectionComesBack(cfg: Config, prerollMs: int, clock: nat, events: seq<Event>, loss: Callback,
                                a: nat, io: UpdateIo, b: nat, again: UpdateIo, text: Text, ack: HelloAck, dataIo: DataIo)
    requires Online(RunOf(cfg, prerollMs, clock, events).s.device)
    requires loss.Disconnected? || loss.TransportError?
    requires var drawn := Later(cfg, Step(cfg, RunOf(cfg, prerollMs, clock, events), Polled(loss)), a, io);
      1000 * LastDraw(drawn) <= b < TICKS
    requires IsHello(text, ack)
    ensures var r := RunOf(cfg, prerollMs, clock, events);
      var lost := Step(cfg, r, Polled(loss));
      var drawn := Later(cfg, lost, a, io);
      var tried := Later(cfg, drawn, b, again);
      var linked := Step(cfg, tried, Polled(Connected(true)));
      && Down(lost.s) && lost.s.link.pending && lost.s.replay == Replay([], [], 0)
      && Down(drawn.s) && |drawn.draws| == |lost.draws| + 1
      && Down(tried.s) && |tried.attempts| == |drawn.attempts| + 1
      && (again.connect != ConnectStarted ==> tried.s.link.pending && !tried.s.link.scheduled)
      && (again.connect == ConnectStarted ==> !tried.s.link.pending)
      && CameUp(Told(cfg, linked, text, dataIo).s, ack)
  {
    var r := RunOf(cfg, prerollMs, clock, events);
    LossBringsDown(cfg, r, loss);
    var lost := Step(cfg, r, Polled(loss));
    DownDraws(cfg, lost, a, io);
    var drawn := Later(cfg, lost, a, io);
    DownConnects(cfg, drawn, b, again);
    HelloBringsUp(cfg, Later(cfg, drawn, b, again), text, ack, dataIo);
    hide Later, Told, Step, RunOf;
  }

  lemma LossBringsDown(cfg: Config, r: Run, loss: Callback)
    requires Online(r.s.device) && (loss.Disconnected? || loss.TransportError?)
    ensures var t := Step(cfg, r, Polled(loss));
      && Down(t.s) && t.s.link.pending && !t.s.link.scheduled && t.s.replay == Replay([], [], 0)
      && t.trace == [] && t.draws == r.draws && t.s.window.count == 0
      && t.s.input.turnId == "" && t.s.input.streamId == "" && !t.s.input.open && !t.s.output.active
      && t.s.troubles == NO_TROUBLES && t.s.cancels == Cancels("", "", "")
  {
  }
}
