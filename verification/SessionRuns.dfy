/** What holds after every step of every run of the bridge session. */
module SessionRuns {
  import opened Wrappers
  import opened DeviceStates
  import opened Session
  import Audio = AudioOutput
  import Reconnect

  /** One atomic step: a public call, one polled callback, or one part of an update. An update is a
      `Clock`, the polled callbacks, and a `Ticked`; runs may interleave these in any order. */
  datatype Event =
    | Initialized(configOk: bool)
    | WifiReady(connect: ConnectIo)
    | ReconnectAsked(connect: ConnectIo)
    | Clock(advance: nat)
    | Polled(callback: Callback)
    | Ticked(io: UpdateIo)
    | InputBegun(turnId: string, streamId: string, attempt: Attempt)
    | InputPacketSent(size: nat, sent: bool)
    | InputEndAsked(attempt: Attempt)
    | TouchSent(attempt: Attempt)
    | CameraSent(attempt: Attempt)
    | DecodeFailed(attempt: Attempt)
    | OutputPopped
    | OutputOffered(downstreamIdle: bool, consumerAccepts: bool)
    | OutputAcknowledged

  /** A call of reconnect by an update: when, and the delay last drawn and when it was drawn. */
  datatype ConnectAttempt = ConnectAttempt(at: nat, drawnAt: nat, seconds: nat)

  /** A session with what an observer recorded: the effects since the last disconnect, the true
      clock in milliseconds, the draws and stable connections of the whole run, the delays drawn,
      the time of the last draw, and every connect attempt by an update. */
  datatype Run = Run(s: State, trace: seq<Effect>, clock: nat, history: seq<Reconnect.Event>,
                     draws: seq<nat>, drawnAt: nat, attempts: seq<ConnectAttempt>)

  function Start(prerollMs: int, clock: nat): Run {
    Run(Boot(prerollMs), [], clock, [], [], clock, [])
  }

  function Poll(cfg: Config, r: Run, callback: Callback): Run {
    var (s, effects) := Deliver(cfg, r.s, callback);
    r.(s := s, trace := if callback.Disconnected? || callback.TransportError? then [] else r.trace + effects)
  }

  /** The observer's view of the stable timer. */
  function Settle(r: Run, s: State, now: u32): Run {
    r.(s := TickStable(s, now),
       history := if StableReached(s, now) then r.history + [Reconnect.Connected(Reconnect.STABLE_SECONDS)]
                  else r.history)
  }

  function LastDraw(r: Run): nat {
    if r.draws == [] then 0 else r.draws[|r.draws| - 1]
  }

  /** The observer's view of the reconnect part of an update. */
  function Reschedule(r: Run, now: u32, io: ConnectIo): Run {
    var r' := r.(s := TickReconnect(r.s, now, io));
    match ScheduleOf(r.s.link, now)
    case Draws =>
      r'.(history := r.history + [Reconnect.Draw], draws := r.draws + [r.s.link.nextDelay], drawnAt := r.clock)
    case Attempts => r'.(attempts := r.attempts + [ConnectAttempt(r.clock, r.drawnAt, LastDraw(r))])
    case _ => r'
  }

  function Step(cfg: Config, r: Run, e: Event): Run {
    match e
    case Initialized(configOk) => r.(s := Initialize(r.s, configOk))
    case WifiReady(connect) => r.(s := WifiUp(r.s, connect))
    case ReconnectAsked(connect) => r.(s := ReconnectNow(r.s, connect))
    case Clock(advance) =>
      r.(clock := r.clock + advance, s := r.s.(lastUpdateMs := (r.clock + advance) % TICKS))
    case Polled(callback) => Poll(cfg, r, callback)
    case Ticked(io) =>
      var now := r.clock % TICKS;
      Reschedule(Settle(r, TickTimers(cfg, r.s, now, io), now), now, io.connect)
    case InputBegun(turnId, streamId, attempt) => r.(s := BeginInput(cfg, r.s, turnId, streamId, attempt).0)
    case InputPacketSent(size, sent) =>
      r.(s := SendOnline(r.s, MaySendInput(r.s, size), if sent then Sent else SendFailed))
    case InputEndAsked(attempt) => r.(s := EndInput(cfg, r.s, attempt).0)
    case TouchSent(attempt) => r.(s := SendOnline(r.s, MaySendEvent(cfg, r.s) && cfg.touch, attempt))
    case CameraSent(attempt) => r.(s := SendOnline(r.s, MaySendEvent(cfg, r.s), attempt))
    case DecodeFailed(attempt) => r.(s := DecodeFailure(cfg, r.s, attempt))
    case OutputPopped => r.(s := PopOutput(r.s).0)
    case OutputOffered(idle, accepts) => r.(s := DeliverOutput(r.s, idle, accepts).0)
    case OutputAcknowledged => r.(s := AcknowledgeOutput(r.s).0)
  }

  function StepAll(cfg: Config, r: Run, events: seq<Event>): Run
    decreases |events|
  {
    if events == [] then r else StepAll(cfg, Step(cfg, r, events[0]), events[1..])
  }

  // ----- The invariant --------------------------------------------------------------------------

  /** Connection state, stream state and flags agree. */
  predicate Agreement(s: State) {
    && (s.device == Speaking <==> s.output.active)
    && (s.input.open ==> s.device == Listening)
    && (s.input.open <==> s.input.timer.armed)
    && (s.device == Listening ==> s.input.open || s.link.pending)
    && (s.helloAck.Some? <==> Online(s.device))
    && (s.timers.heartbeat.armed || s.timers.stable.armed ==> s.helloAck.Some?)
    && (s.output.open || s.output.ended ==> s.output.active)
    && s.device != Updating
  }

  function Storage(cache: seq<Entry>): nat {
    if cache == [] then 0 else Storage(cache[..|cache| - 1]) + cache[|cache| - 1].storage
  }

  predicate ReplaySound(replay: Replay) {
    && |replay.cache| <= CACHE_LIMIT
    && replay.cacheBytes == Storage(replay.cache) <= CACHE_BYTE_LIMIT
    && |replay.seen| <= SEEN_LIMIT
    && (forall i :: 0 <= i < |replay.cache| ==> |replay.cache[i].response| <= replay.cache[i].storage)
    && (forall i, j :: 0 <= i < j < |replay.cache| ==>
          replay.cache[i].command.requestId != replay.cache[j].command.requestId)
  }

  ghost predicate InCache(cache: seq<Entry>, command: Command) {
    exists k :: 0 <= k < |cache| && cache[k].command == command
  }

  ghost predicate AnsweredFrom(cache: seq<Entry>, command: Command, response: Response) {
    exists k :: 0 <= k < |cache| && SameRequest(cache[k].command, command) && cache[k].response == response
  }

  predicate SameIdSameCommand(a: Command, b: Command) {
    a.requestId == b.requestId ==> a == b
  }

  predicate RanOnce(trace: seq<Effect>) {
    forall i, j :: 0 <= i < j < |trace| && trace[i].Ran? && trace[j].Ran? ==>
      trace[i].command.requestId != trace[j].command.requestId
  }

  /** Every handler run of this connection is cached, unless the connection is given up; every
      answer came from the cache; a cached request id belongs to the command that ran under it. */
  ghost predicate TraceSound(cache: seq<Entry>, pending: bool, trace: seq<Effect>) {
    && (forall i :: 0 <= i < |trace| && trace[i].Ran? ==> pending || InCache(cache, trace[i].command))
    && (forall i :: 0 <= i < |trace| && trace[i].Answered? ==>
          AnsweredFrom(cache, trace[i].command, trace[i].response))
    && (forall i, k :: 0 <= i < |trace| && trace[i].Ran? && 0 <= k < |cache| ==>
          SameIdSameCommand(cache[k].command, trace[i].command))
    && RanOnce(trace)
  }

  /** Commands are only remembered while the session is online. */
  ghost predicate CommandsSound(s: State, trace: seq<Effect>) {
    && ReplaySound(s.replay)
    && TraceSound(s.replay.cache, s.link.pending, trace)
    && (s.replay.cache != [] || trace != [] ==> Online(s.device))
  }

  /** The backoff counter and the drawn delays are those of the recorded history; a schedule is the
      last draw, made after the last attempt; every attempt waited for its draw. */
  predicate ScheduleSound(r: Run) {
    && r.drawnAt <= r.clock
    && r.s.link.nextDelay == Reconnect.CounterAfter(1, r.history)
    && r.draws == Reconnect.FirmwareDelays(1, r.history)
    && (r.s.link.scheduled ==>
          && r.s.link.scheduledAt == r.drawnAt % TICKS
          && r.s.link.delayMs == 1000 * LastDraw(r)
          && (r.attempts != [] ==> r.attempts[|r.attempts| - 1].at <= r.drawnAt))
    && (r.attempts != [] ==> r.attempts[|r.attempts| - 1].at <= r.clock)
    && AttemptsSpaced(r.attempts)
  }

  predicate AttemptsSpaced(attempts: seq<ConnectAttempt>) {
    && (forall i :: 0 <= i < |attempts| ==> attempts[i].drawnAt + 1000 * attempts[i].seconds <= attempts[i].at)
    && (forall i :: 0 < i < |attempts| ==> attempts[i - 1].at <= attempts[i].drawnAt)
  }

  ghost predicate Inv(r: Run) {
    Agreement(r.s) && CommandsSound(r.s, r.trace) && ScheduleSound(r)
  }

  /** A step that keeps the agreement, leaves the cache alone, stays online if it was, does not take
      back a decision to reconnect while online, and makes no reconnect schedule of its own. */
  predicate Harmless(s: State, t: State) {
    && Agreement(t)
    && t.replay.cache == s.replay.cache && t.replay.cacheBytes == s.replay.cacheBytes
    && (|s.replay.seen| <= SEEN_LIMIT ==> |t.replay.seen| <= SEEN_LIMIT)
    && (Online(s.device) ==> Online(t.device) && (s.link.pending ==> t.link.pending))
    && NoNewSchedule(s.link, t.link)
  }

  predicate NoNewSchedule(before: Link, after: Link) {
    && after.nextDelay == before.nextDelay
    && (after.scheduled ==>
          before.scheduled && after.scheduledAt == before.scheduledAt && after.delayMs == before.delayMs)
  }

  /** A step from `s` to `t` that may have extended the trace keeps every part of the invariant. */
  ghost predicate Sound(s: State, t: State, trace: seq<Effect>) {
    Agreement(t) && CommandsSound(t, trace) && NoNewSchedule(s.link, t.link)
  }

  lemma HarmlessIsSound(s: State, t: State, trace: seq<Effect>)
    requires Harmless(s, t) && CommandsSound(s, trace)
    ensures Sound(s, t, trace)
  {
  }

  // ----- Harmless steps -------------------------------------------------------------------------

  lemma PeerErrorHarmless(cfg: Config, s: State, attempt: Attempt)
    requires Agreement(s)
    ensures Harmless(s, ReportPeerError(cfg, s, attempt))
    ensures ReportPeerError(cfg, s, attempt).device == s.device
  {
  }

  lemma RememberHarmless(s: State, id: string)
    requires Agreement(s)
    ensures Harmless(s, Remember(s, id))
  {
  }

  lemma ExecuteHarmless(s: State, command: Command)
    requires Agreement(s)
    ensures Harmless(s, Execute(s, command).0) && Execute(s, command).0.link == s.link
  {
  }

  lemma EndInputHarmless(cfg: Config, s: State, attempt: Attempt)
    requires Agreement(s)
    ensures Harmless(s, EndInput(cfg, s, attempt).0)
    ensures EndInput(cfg, s, attempt).1 ==>
      EndInput(cfg, s, attempt).0.device == Idle && !EndInput(cfg, s, attempt).0.input.open
  {
  }

  lemma BeginInputHarmless(cfg: Config, s: State, turnId: string, streamId: string, attempt: Attempt)
    requires Agreement(s)
    ensures Harmless(s, BeginInput(cfg, s, turnId, streamId, attempt).0)
  {
  }

  lemma OutputStartHarmless(cfg: Config, s: State, stream: Audio.Stream, io: DataIo)
    requires Agreement(s) && Online(s.device)
    ensures Harmless(s, HandleOutputStart(cfg, s, stream, io))
  {
    var (s1, ended) := if s.input.open then EndInput(cfg, s, io.endInput) else (s, true);
    EndInputHarmless(cfg, s, io.endInput);
    if ended {
      StartPlaybackHarmless(cfg, s1, stream, io.peer);
    }
    hide StartPlayback, EndInput, Agreement;
  }

  lemma StartPlaybackHarmless(cfg: Config, s: State, stream: Audio.Stream, peer: Attempt)
    requires Agreement(s) && Online(s.device) && !s.input.open
    ensures Harmless(s, StartPlayback(cfg, s, stream, peer))
  {
    PeerErrorHarmless(cfg, s, peer);
    hide Observe, Audio.ValidStream;
  }

  lemma OutputEndHarmless(cfg: Config, s: State, turnId: string, streamId: string, reason: Audio.EndReason, peer: Attempt)
    requires Agreement(s)
    ensures Harmless(s, HandleOutputEnd(cfg, s, turnId, streamId, reason, peer))
  {
    PeerErrorHarmless(cfg, s, peer);
  }

  lemma AudioControlHarmless(cfg: Config, s: State, control: AudioControl, io: DataIo)
    requires Agreement(s) && Online(s.device)
    ensures Harmless(s, HandleAudioControl(cfg, s, control, io))
  {
    var s1 := Remember(s, control.messageId);
    RememberHarmless(s, control.messageId);
    match control
    case StartOutput(_, stream) => OutputStartHarmless(cfg, s1, stream, io);
    case EndOutput(_, turnId, streamId, reason) => OutputEndHarmless(cfg, s1, turnId, streamId, reason, io.peer);
  }

  lemma RemoteErrorHarmless(s: State, error: RemoteError)
    requires Agreement(s)
    ensures Harmless(s, HandleRemoteError(s, error))
  {
  }

  lemma BinaryHarmless(cfg: Config, s: State, packet: Audio.Packet, peer: Attempt)
    requires Agreement(s)
    ensures Harmless(s, HandleBinary(cfg, s, packet, peer))
  {
  }

  lemma DecodeFailureHarmless(cfg: Config, s: State, attempt: Attempt)
    requires Agreement(s)
    ensures Harmless(s, DecodeFailure(cfg, s, attempt))
  {
  }

  lemma PlaybackHarmless(s: State, idle: bool, accepts: bool)
    requires Agreement(s)
    ensures Harmless(s, PopOutput(s).0)
    ensures Harmless(s, DeliverOutput(s, idle, accepts).0)
  {
  }

  lemma AcknowledgeHarmless(s: State)
    requires Agreement(s)
    ensures Harmless(s, AcknowledgeOutput(s).0)
  {
  }

  lemma ConnectHarmless(s: State, io: ConnectIo)
    requires Agreement(s)
    ensures Harmless(s, ReconnectNow(s, io)) && Harmless(s, WifiUp(s, io))
  {
  }

  lemma TimersHarmless(cfg: Config, s: State, now: u32, io: UpdateIo)
    requires Agreement(s)
    ensures Harmless(s, TickTimers(cfg, s, now, io))
  {
    var a := ReportBufferEvents(cfg, s, io);
    var b := TickInput(cfg, a, now, io.endInput);
    InputTimerHarmless(cfg, a, now, io.endInput);
    var c := TickHandshake(b, now);
    HandshakeTimerHarmless(b, now);
    HeartbeatTimerHarmless(c, now);
  }

  lemma InputTimerHarmless(cfg: Config, s: State, now: u32, attempt: Attempt)
    requires Agreement(s)
    ensures Harmless(s, TickInput(cfg, s, now, attempt))
  {
    EndInputHarmless(cfg, s, attempt);
  }

  lemma HandshakeTimerHarmless(s: State, now: u32)
    requires Agreement(s)
    ensures Harmless(s, TickHandshake(s, now))
  {
  }

  lemma HeartbeatTimerHarmless(s: State, now: u32)
    requires Agreement(s)
    ensures Harmless(s, TickHeartbeat(s, now))
  {
  }

  // ----- Commands -------------------------------------------------------------------------------

  lemma StorageAppend(cache: seq<Entry>, e: Entry)
    ensures Storage(cache + [e]) == Storage(cache) + e.storage
  {
    assert (cache + [e])[..|cache|] == cache;
  }

  lemma KeepSound(replay: Replay, e: Entry)
    requires ReplaySound(replay) && |replay.cache| < CACHE_LIMIT
    requires replay.cacheBytes + e.storage <= CACHE_BYTE_LIMIT && |e.response| <= e.storage
    requires FindResult(replay.cache, e.command.requestId) == |replay.cache|
    ensures ReplaySound(Keep(replay, e))
  {
    StorageAppend(replay.cache, e);
  }

  /** The room looked for before a command runs is enough for whatever its result turns out to be. */
  lemma ReservedRoomSuffices(replay: Replay, charged: nat, command: Command, response: Response)
    requires ReplaySound(replay) && HasRoom(replay, charged)
    requires FindResult(replay.cache, command.requestId) == |replay.cache|
    ensures ReplaySound(Keep(replay, Entry(command, response, charged + |response|)))
  {
    KeepSound(replay, Entry(command, response, charged + |response|));
  }

  lemma CacheGrows(cache: seq<Entry>, e: Entry, command: Command, response: Response)
    ensures InCache(cache, command) ==> InCache(cache + [e], command)
    ensures AnsweredFrom(cache, command, response) ==> AnsweredFrom(cache + [e], command, response)
    ensures InCache(cache + [e], e.command) && AnsweredFrom(cache + [e], e.command, e.response)
  {
    var grown := cache + [e];
    assert grown[|cache|] == e;
    if InCache(cache, command) {
      var k :| 0 <= k < |cache| && cache[k].command == command;
      assert grown[k].command == command;
    }
    if AnsweredFrom(cache, command, response) {
      var k :| 0 <= k < |cache| && SameRequest(cache[k].command, command) && cache[k].response == response;
      assert grown[k] == cache[k];
    }
  }

  /** While no reconnect is pending, a request id without a cached result has not run. */
  lemma UncachedHasNotRun(cache: seq<Entry>, trace: seq<Effect>, requestId: string)
    requires TraceSound(cache, false, trace) && FindResult(cache, requestId) == |cache|
    ensures forall i :: 0 <= i < |trace| && trace[i].Ran? ==> trace[i].command.requestId != requestId
  {
    forall i | 0 <= i < |trace| && trace[i].Ran? ensures trace[i].command.requestId != requestId {
      assert InCache(cache, trace[i].command);
    }
  }

  lemma RanSound(cache: seq<Entry>, pending: bool, trace: seq<Effect>, command: Command)
    requires TraceSound(cache, pending, trace)
    requires forall i :: 0 <= i < |trace| && trace[i].Ran? ==> trace[i].command.requestId != command.requestId
    requires pending || InCache(cache, command)
    requires forall k :: 0 <= k < |cache| ==> SameIdSameCommand(cache[k].command, command)
    ensures TraceSound(cache, pending, trace + [Ran(command)])
  {
  }

  lemma AnswerSound(cache: seq<Entry>, pending: bool, trace: seq<Effect>, command: Command, response: Response)
    requires TraceSound(cache, pending, trace) && AnsweredFrom(cache, command, response)
    ensures TraceSound(cache, pending, trace + [Answered(command, response)])
  {
  }

  lemma KeepTraceSound(cache: seq<Entry>, trace: seq<Effect>, e: Entry)
    requires TraceSound(cache, false, trace)
    requires forall i :: 0 <= i < |trace| && trace[i].Ran? ==> trace[i].command.requestId != e.command.requestId
    ensures TraceSound(cache + [e], false, trace)
  {
    forall i | 0 <= i < |trace|
      ensures trace[i].Ran? ==> InCache(cache + [e], trace[i].command)
      ensures trace[i].Answered? ==> AnsweredFrom(cache + [e], trace[i].command, trace[i].response)
    {
      CacheGrows(cache, e, trace[i].command, if trace[i].Answered? then trace[i].response else "");
    }
  }

  /** A new result is kept: the command's run, if it ran, and its answer join the trace. */
  lemma NewResultSound(cache: seq<Entry>, trace: seq<Effect>, ran: bool, e: Entry)
    requires TraceSound(cache, false, trace) && FindResult(cache, e.command.requestId) == |cache|
    ensures var effects := (if ran then [Ran(e.command)] else []) + [Answered(e.command, e.response)];
      TraceSound(cache + [e], false, trace + effects)
  {
    hide TraceSound, InCache, AnsweredFrom;
    UncachedHasNotRun(cache, trace, e.command.requestId);
    KeepTraceSound(cache, trace, e);
    CacheGrows(cache, e, e.command, e.response);
    var after := if ran then trace + [Ran(e.command)] else trace;
    if ran {
      RanSound(cache + [e], false, trace, e.command);
    }
    AnswerSound(cache + [e], false, after, e.command, e.response);
    assert trace + ((if ran then [Ran(e.command)] else []) + [Answered(e.command, e.response)])
        == after + [Answered(e.command, e.response)];
  }

  lemma LostResultSound(cache: seq<Entry>, trace: seq<Effect>, ran: bool, command: Command)
    requires TraceSound(cache, false, trace) && FindResult(cache, command.requestId) == |cache|
    ensures TraceSound(cache, true, trace + if ran then [Ran(command)] else [])
  {
    UncachedHasNotRun(cache, trace, command.requestId);
    if ran {
      RanSound(cache, true, trace, command);
    } else {
      assert trace + [] == trace;
    }
  }

  lemma RetrySound(cfg: Config, s: State, trace: seq<Effect>, k: nat, command: Command, io: DataIo)
    requires Agreement(s) && CommandsSound(s, trace) && k < |s.replay.cache|
    ensures var (t, effects) := AnswerRetry(cfg, s, s.replay.cache[k], command, io);
      Sound(s, t, trace + effects)
  {
    var (t, effects) := AnswerRetry(cfg, s, s.replay.cache[k], command, io);
    var s1 := Remember(s, command.messageId);
    RememberHarmless(s, command.messageId);
    PeerErrorHarmless(cfg, s1, io.peer);
    HarmlessIsSound(s, t, trace);
    if effects == [] {
      assert trace + effects == trace;
    } else {
      AnswerSound(s.replay.cache, s.link.pending, trace, command, s.replay.cache[k].response);
    }
  }

  lemma NewSound(cfg: Config, s: State, trace: seq<Effect>, size: nat, command: Command, io: DataIo)
    requires Agreement(s) && CommandsSound(s, trace) && Online(s.device)
    requires Classify(cfg, s, size, command) == New
    ensures var (t, effects) := HandleCommand(cfg, s, size, command, io); Sound(s, t, trace + effects)
  {
    hide TraceSound, ReplaySound, Execute;
    var s1 := Remember(s, command.messageId);
    RememberHarmless(s, command.messageId);
    ExecuteHarmless(s1, command);
    var (s2, ran) := Execute(s1, command);
    HarmlessIsSound(s, s2, trace);
    if io.reply.NotBuilt? || !io.reply.sent {
      LostResultSound(s.replay.cache, trace, ran, command);
    } else {
      var e := Entry(command, io.reply.response, size + cfg.entryBytes + |io.reply.response|);
      ReservedRoomSuffices(s2.replay, size + cfg.entryBytes, command, io.reply.response);
      NewResultSound(s.replay.cache, trace, ran, e);
    }
  }

  /** A command that neither runs nor is answered. */
  lemma QuietSound(cfg: Config, s: State, trace: seq<Effect>, size: nat, command: Command, io: DataIo)
    requires Agreement(s) && CommandsSound(s, trace)
    requires Classify(cfg, s, size, command) in {Unavailable, Ignored, Full}
    ensures var (t, effects) := HandleCommand(cfg, s, size, command, io); Sound(s, t, trace + effects)
  {
    var t := HandleCommand(cfg, s, size, command, io).0;
    PeerErrorHarmless(cfg, s, io.peer);
    assert Harmless(s, t);
    HarmlessIsSound(s, t, trace);
    assert trace + [] == trace;
  }

  lemma CommandSound(cfg: Config, s: State, trace: seq<Effect>, size: nat, command: Command, io: DataIo)
    requires Agreement(s) && CommandsSound(s, trace) && Online(s.device)
    ensures var (t, effects) := HandleCommand(cfg, s, size, command, io); Sound(s, t, trace + effects)
  {
    match Classify(cfg, s, size, command)
    case Retry(k) => RetrySound(cfg, s, trace, k, command, io);
    case New => NewSound(cfg, s, trace, size, command, io);
    case _ => QuietSound(cfg, s, trace, size, command, io);
  }

  // ----- Every step -----------------------------------------------------------------------------

  lemma TextSound(cfg: Config, s: State, trace: seq<Effect>, text: Text, io: DataIo)
    requires Agreement(s) && CommandsSound(s, trace) && Online(s.device)
    ensures var (t, effects) := HandleText(cfg, s, text, io); Sound(s, t, trace + effects)
  {
    var (t, effects) := HandleText(cfg, s, text, io);
    if !text.cameraAck && !text.audio.Parsed? && !text.remote.Parsed? && text.command.Parsed? {
      CommandSound(cfg, s, trace, text.size, text.command.value, io);
    } else {
      if text.audio.Parsed? {
        AudioControlHarmless(cfg, s, text.audio.value, io);
      }
      if text.remote.Parsed? {
        RemoteErrorHarmless(s, text.remote.value);
      }
      PeerErrorHarmless(cfg, s, io.peer);
      assert trace + effects == trace;
      HarmlessIsSound(s, t, trace);
    }
  }

  lemma DataSound(cfg: Config, s: State, trace: seq<Effect>, payload: Payload, io: DataIo)
    requires Agreement(s) && CommandsSound(s, trace)
    ensures var (t, effects) := HandleData(cfg, s, payload, io); Sound(s, t, trace + effects)
  {
    var (t, effects) := HandleData(cfg, s, payload, io);
    if Online(s.device) && payload.TextData? {
      TextSound(cfg, s, trace, payload.text, io);
    } else {
      if payload.Binary? {
        BinaryHarmless(cfg, s, payload.packet, io.peer);
      }
      if s.device == ConnectingBridge {
        HelloHarmless(s, payload);
      }
      PeerErrorHarmless(cfg, s, io.peer);
      assert trace + effects == trace;
      HarmlessIsSound(s, t, trace);
    }
  }

  lemma HelloHarmless(s: State, payload: Payload)
    requires Agreement(s) && s.device == ConnectingBridge
    ensures Harmless(s, HandleHello(s, payload))
  {
  }

  lemma DisconnectSound(s: State)
    requires Agreement(s)
    ensures Sound(s, HandleDisconnect(s), [])
  {
  }

  lemma PollSound(cfg: Config, r: Run, callback: Callback)
    requires Agreement(r.s) && CommandsSound(r.s, r.trace)
    ensures var t := Poll(cfg, r, callback); Sound(r.s, t.s, t.trace)
  {
    var t := Poll(cfg, r, callback);
    match callback
    case Data(payload, io) => DataSound(cfg, r.s, r.trace, payload, io);
    case Disconnected => DisconnectSound(r.s);
    case TransportError => DisconnectSound(r.s);
    case _ =>
      assert t.trace == r.trace;
      HarmlessIsSound(r.s, t.s, r.trace);
  }

  lemma SettleCommands(s: State, trace: seq<Effect>, now: u32)
    requires Agreement(s) && CommandsSound(s, trace)
    ensures Agreement(TickStable(s, now)) && CommandsSound(TickStable(s, now), trace)
  {
    assert TickStable(s, now) == s.(link := TickStable(s, now).link, timers := TickStable(s, now).timers);
  }

  lemma SettleTiming(r: Run, s: State, now: u32)
    requires ScheduleSound(r) && NoNewSchedule(r.s.link, s.link)
    ensures ScheduleSound(Settle(r, s, now))
  {
    Reconnect.OneMore(1, r.history, Reconnect.Connected(Reconnect.STABLE_SECONDS));
  }

  lemma RescheduleCommands(s: State, trace: seq<Effect>, now: u32, io: ConnectIo)
    requires Agreement(s) && CommandsSound(s, trace)
    ensures var t := TickReconnect(s, now, io); Agreement(t) && CommandsSound(t, trace)
  {
    var t := TickReconnect(s, now, io);
    if ScheduleOf(s.link, now).Attempts? {
      var idle := s.(link := s.link.(scheduled := false));
      ConnectHarmless(idle, io);
      HarmlessIsSound(s, t, trace);
    } else {
      assert t == s.(link := t.link);
    }
  }

  lemma RescheduleTiming(r: Run, io: ConnectIo)
    requires ScheduleSound(r)
    ensures ScheduleSound(Reschedule(r, r.clock % TICKS, io))
  {
    ElapsedIsLowerBound(r.drawnAt, r.clock);
    Reconnect.OneMore(1, r.history, Reconnect.Draw);
  }

  lemma TickCommands(cfg: Config, s: State, trace: seq<Effect>, now: u32, io: UpdateIo)
    requires Agreement(s) && CommandsSound(s, trace)
    ensures var t := Tick(cfg, s, now, io); Agreement(t) && CommandsSound(t, trace)
  {
    var ticked := TickTimers(cfg, s, now, io);
    TimersHarmless(cfg, s, now, io);
    HarmlessIsSound(s, ticked, trace);
    SettleCommands(ticked, trace, now);
    RescheduleCommands(TickStable(ticked, now), trace, now, io.connect);
  }

  lemma TickTiming(cfg: Config, r: Run, io: UpdateIo)
    requires Agreement(r.s) && ScheduleSound(r)
    ensures ScheduleSound(Step(cfg, r, Ticked(io)))
  {
    var now := r.clock % TICKS;
    var ticked := TickTimers(cfg, r.s, now, io);
    TimersHarmless(cfg, r.s, now, io);
    SettleTiming(r, ticked, now);
    RescheduleTiming(Settle(r, ticked, now), io.connect);
  }

  lemma StepSound(cfg: Config, r: Run, e: Event)
    requires Inv(r)
    ensures Inv(Step(cfg, r, e))
  {
    if e.Ticked? {
      TickSound(cfg, r, e.io);
    } else {
      UntimedSound(cfg, r, e);
    }
    hide Step, Inv;
  }

  lemma TickSound(cfg: Config, r: Run, io: UpdateIo)
    requires Inv(r)
    ensures Inv(Step(cfg, r, Ticked(io)))
  {
    TickCommands(cfg, r.s, r.trace, r.clock % TICKS, io);
    TickTiming(cfg, r, io);
    TickIsStep(cfg, r, io);
    TickKeepsTrace(cfg, r, io);
    hide Step, Agreement, CommandsSound, ScheduleSound, Tick;
  }

  lemma TimingCarries(r: Run, t: Run)
    requires ScheduleSound(r) && NoNewSchedule(r.s.link, t.s.link) && r.clock <= t.clock
    requires t == r.(s := t.s, trace := t.trace, clock := t.clock)
    ensures ScheduleSound(t)
  {
  }

  lemma UntimedSound(cfg: Config, r: Run, e: Event)
    requires Inv(r) && !e.Ticked?
    ensures Inv(Step(cfg, r, e))
  {
    var t := Step(cfg, r, e);
    if e.Polled? {
      PollSound(cfg, r, e.callback);
    } else {
      CallHarmless(cfg, r, e);
      HarmlessIsSound(r.s, t.s, r.trace);
    }
    TimingCarries(r, t);
  }

  lemma CallHarmless(cfg: Config, r: Run, e: Event)
    requires Agreement(r.s) && !e.Polled? && !e.Ticked?
    ensures Harmless(r.s, Step(cfg, r, e).s)
  {
    match e
    case WifiReady(connect) => ConnectHarmless(r.s, connect);
    case ReconnectAsked(connect) => ConnectHarmless(r.s, connect);
    case InputBegun(turnId, streamId, attempt) => BeginInputHarmless(cfg, r.s, turnId, streamId, attempt);
    case InputEndAsked(attempt) => EndInputHarmless(cfg, r.s, attempt);
    case DecodeFailed(attempt) => DecodeFailureHarmless(cfg, r.s, attempt);
    case OutputPopped => PlaybackHarmless(r.s, false, false);
    case OutputOffered(idle, accepts) => PlaybackHarmless(r.s, idle, accepts);
    case OutputAcknowledged => AcknowledgeHarmless(r.s);
    case InputPacketSent(size, sent) =>
      SendHarmless(r.s, MaySendInput(r.s, size), if sent then Sent else SendFailed);
    case TouchSent(attempt) => SendHarmless(r.s, MaySendEvent(cfg, r.s) && cfg.touch, attempt);
    case CameraSent(attempt) => SendHarmless(r.s, MaySendEvent(cfg, r.s), attempt);
    case _ =>
  }

  lemma SendHarmless(s: State, allowed: bool, attempt: Attempt)
    requires Agreement(s)
    ensures Harmless(s, SendOnline(s, allowed, attempt))
  {
  }

  lemma {:induction false} RunSound(cfg: Config, r: Run, events: seq<Event>)
    requires Inv(r)
    ensures Inv(StepAll(cfg, r, events))
    decreases |events|
  {
    if events != [] {
      StepSound(cfg, r, events[0]);
      RunSound(cfg, Step(cfg, r, events[0]), events[1..]);
    }
  }

  lemma BootSound(prerollMs: int, clock: nat)
    ensures Inv(Start(prerollMs, clock))
  {
  }

  /** One update as steps of a run. */
  function UpdateSteps(advance: nat, callbacks: seq<Callback>, io: UpdateIo): seq<Event> {
    [Clock(advance)] + Polls(callbacks) + [Ticked(io)]
  }

  function Polls(callbacks: seq<Callback>): seq<Event> {
    if callbacks == [] then []
    else Polls(callbacks[..|callbacks| - 1]) + [Polled(callbacks[|callbacks| - 1])]
  }

  lemma {:induction false} StepAllAppend(cfg: Config, r: Run, events: seq<Event>, e: Event)
    ensures StepAll(cfg, r, events + [e]) == Step(cfg, StepAll(cfg, r, events), e)
    decreases |events|
  {
    if events == [] {
      assert [] + [e] == [e] && [e][1..] == [];
    } else {
      assert (events + [e])[1..] == events[1..] + [e];
      StepAllAppend(cfg, Step(cfg, r, events[0]), events[1..], e);
    }
  }

  lemma {:induction false} StepAllConcat(cfg: Config, r: Run, events: seq<Event>, more: seq<Event>)
    ensures StepAll(cfg, r, events + more) == StepAll(cfg, StepAll(cfg, r, events), more)
    decreases |more|
  {
    hide Step;
    if more == [] {
      assert events + more == events;
    } else {
      assert events + more == (events + [more[0]]) + more[1..];
      StepAllAppend(cfg, r, events, more[0]);
      StepAllConcat(cfg, r, events + [more[0]], more[1..]);
    }
  }

  predicate Ends(callback: Callback) {
    callback.Disconnected? || callback.TransportError?
  }

  /** The connection ended during these callbacks. */
  predicate AnyEnds(callbacks: seq<Callback>) {
    exists i :: 0 <= i < |callbacks| && Ends(callbacks[i])
  }

  lemma LastEnds(callbacks: seq<Callback>)
    requires callbacks != []
    ensures AnyEnds(callbacks) <==> AnyEnds(callbacks[..|callbacks| - 1]) || Ends(callbacks[|callbacks| - 1])
  {
    var front := callbacks[..|callbacks| - 1];
    assert forall i :: 0 <= i < |front| ==> front[i] == callbacks[i];
  }

  /** A trace continues another with some effects, of which it keeps all unless the connection ended
      in between, and the last ones otherwise. */
  predicate Continues(trace: seq<Effect>, before: seq<Effect>, effects: seq<Effect>, ended: bool) {
    var all := before + effects;
    |trace| <= |all| && trace == all[|all| - |trace|..] && (!ended ==> trace == all)
  }

  /** What the callbacks of an update had as effects is what an observer of the run records. */
  lemma {:induction false} PollsTrace(cfg: Config, r: Run, callbacks: seq<Callback>)
    ensures Continues(StepAll(cfg, r, Polls(callbacks)).trace, r.trace, DeliverAll(cfg, r.s, callbacks).1, AnyEnds(callbacks))
    decreases |callbacks|
  {
    hide AnyEnds, Poll, Deliver;
    if callbacks == [] {
      assert r.trace + [] == r.trace;
    } else {
      var n := |callbacks| - 1;
      var c := callbacks[n];
      var t := StepAll(cfg, r, Polls(callbacks[..n]));
      PollMore(cfg, r, callbacks);
      PollsTrace(cfg, r, callbacks[..n]);
      LastEnds(callbacks);
      PollTrace(cfg, t, c);
      hide Continues, StepAll, DeliverAll, Polls;
      ContinuesFurther(t.trace, r.trace, DeliverAll(cfg, r.s, callbacks[..n]).1, AnyEnds(callbacks[..n]),
                       Poll(cfg, t, c).trace, Deliver(cfg, t.s, c).1, Ends(c));
    }
  }

  lemma PollMore(cfg: Config, r: Run, callbacks: seq<Callback>)
    requires callbacks != []
    ensures var (front, c) := (callbacks[..|callbacks| - 1], callbacks[|callbacks| - 1]);
      var t := StepAll(cfg, r, Polls(front));
      && StepAll(cfg, r, Polls(callbacks)) == Poll(cfg, t, c)
      && DeliverAll(cfg, r.s, callbacks).1 == DeliverAll(cfg, r.s, front).1 + Deliver(cfg, t.s, c).1
  {
    hide Poll, Deliver;
    var (front, c) := (callbacks[..|callbacks| - 1], callbacks[|callbacks| - 1]);
    PollsDeliver(cfg, r, front);
    StepAllAppend(cfg, r, Polls(front), Polled(c));
    hide StepAll;
  }

  lemma PollTrace(cfg: Config, r: Run, callback: Callback)
    ensures Continues(Poll(cfg, r, callback).trace, r.trace, Deliver(cfg, r.s, callback).1, Ends(callback))
  {
    hide HandleData, HandleDisconnect;
    var all := r.trace + Deliver(cfg, r.s, callback).1;
    assert all[|all|..] == [] && all[0..] == all;
  }

  lemma ContinuesFurther(a: seq<Effect>, before: seq<Effect>, effects: seq<Effect>, ended: bool,
                         b: seq<Effect>, more: seq<Effect>, endedThen: bool)
    requires Continues(a, before, effects, ended) && Continues(b, a, more, endedThen)
    ensures Continues(b, before, effects + more, ended || endedThen)
  {
    var (x, y, all) := (before + effects, a + more, before + (effects + more));
    assert all == x + more;
    assert y == all[|all| - |y|..];
    assert b == all[|all| - |b|..];
  }

  lemma {:induction false} PollsDeliver(cfg: Config, r: Run, callbacks: seq<Callback>)
    ensures var t := StepAll(cfg, r, Polls(callbacks));
      t.s == DeliverAll(cfg, r.s, callbacks).0 && t.clock == r.clock
    decreases |callbacks|
  {
    hide Deliver;
    if callbacks != [] {
      var n := |callbacks| - 1;
      PollsDeliver(cfg, r, callbacks[..n]);
      StepAllAppend(cfg, r, Polls(callbacks[..n]), Polled(callbacks[n]));
    }
  }

  /** An update of the client is a piece of a run, so what holds of runs holds of the client. */
  lemma UpdateIsSteps(cfg: Config, r: Run, advance: nat, callbacks: seq<Callback>, io: UpdateIo)
    ensures StepAll(cfg, r, UpdateSteps(advance, callbacks, io)).s
         == Update(cfg, r.s, (r.clock + advance) % TICKS, callbacks, io).0
  {
    hide Tick, DeliverAll, Reschedule, Settle, TickTimers, Poll;
    var first := [Clock(advance)] + Polls(callbacks);
    assert first[0] == Clock(advance) && first[1..] == Polls(callbacks);
    StepAllAppend(cfg, r, first, Ticked(io));
    PollsDeliver(cfg, Step(cfg, r, Clock(advance)), callbacks);
    TickIsStep(cfg, StepAll(cfg, r, first), io);
  }

  /** The effects an update returns are those the run records, from the last disconnect on. */
  lemma UpdateTrace(cfg: Config, r: Run, advance: nat, callbacks: seq<Callback>, io: UpdateIo)
    ensures var t := StepAll(cfg, r, UpdateSteps(advance, callbacks, io));
      && t.clock == r.clock + advance
      && Continues(t.trace, r.trace, Update(cfg, r.s, (r.clock + advance) % TICKS, callbacks, io).1, AnyEnds(callbacks))
  {
    hide Tick, DeliverAll, Reschedule, Settle, TickTimers, Poll, Continues, AnyEnds;
    var first := [Clock(advance)] + Polls(callbacks);
    assert first[0] == Clock(advance) && first[1..] == Polls(callbacks);
    StepAllAppend(cfg, r, first, Ticked(io));
    PollsTrace(cfg, Step(cfg, r, Clock(advance)), callbacks);
    PollsDeliver(cfg, Step(cfg, r, Clock(advance)), callbacks);
    TickKeepsTrace(cfg, StepAll(cfg, r, first), io);
  }

  lemma TickKeepsTrace(cfg: Config, r: Run, io: UpdateIo)
    ensures Step(cfg, r, Ticked(io)).trace == r.trace && Step(cfg, r, Ticked(io)).clock == r.clock
  {
    hide TickTimers, TickReconnect, TickStable;
  }

  lemma TickIsStep(cfg: Config, r: Run, io: UpdateIo)
    ensures Step(cfg, r, Ticked(io)).s == Tick(cfg, r.s, r.clock % TICKS, io)
  {
  }

  // ----- Main results ---------------------------------------------------------------------------

  /** The state a run is in after some events, from power-up at some clock reading. */
  function RunOf(cfg: Config, prerollMs: int, clock: nat, events: seq<Event>): Run {
    StepAll(cfg, Start(prerollMs, clock), events)
  }

  lemma RunOfConcat(cfg: Config, prerollMs: int, clock: nat, events: seq<Event>, more: seq<Event>)
    ensures RunOf(cfg, prerollMs, clock, events + more) == StepAll(cfg, RunOf(cfg, prerollMs, clock, events), more)
  {
    StepAllConcat(cfg, Start(prerollMs, clock), events, more);
  }

  /** After every step of every run connection state, stream state and flags agree. */
  lemma AgreementAlways(cfg: Config, prerollMs: int, clock: nat, events: seq<Event>)
    ensures Agreement(RunOf(cfg, prerollMs, clock, events).s)
  {
    BootSound(prerollMs, clock);
    RunSound(cfg, Start(prerollMs, clock), events);
  }

  /** Hence a playback stream that the buffer accepts is never thrown away because the state machine
      refuses it: the reset on that path is unreachable. */
  lemma AcceptedStreamPlays(cfg: Config, prerollMs: int, clock: nat, events: seq<Event>,
                            stream: Audio.Stream, endInput: Attempt)
    ensures var s := RunOf(cfg, prerollMs, clock, events).s;
      var (s1, ended) := if s.input.open then EndInput(cfg, s, endInput) else (s, true);
      Online(s.device) && ended && Audio.Start(s1.output, stream).1 == Audio.Ok ==>
        Transition(s1.device, PlaybackStarted).Some?
  {
    AgreementAlways(cfg, prerollMs, clock, events);
    EndInputHarmless(cfg, RunOf(cfg, prerollMs, clock, events).s, endInput);
  }

  /** Since the last disconnect the command handler ran at most once per request id, whatever failed
      to be built or sent meanwhile. */
  lemma CommandsRunAtMostOnce(cfg: Config, prerollMs: int, clock: nat, events: seq<Event>, i: nat, j: nat)
    requires var trace := RunOf(cfg, prerollMs, clock, events).trace;
      i < |trace| && j < |trace| && trace[i].Ran? && trace[j].Ran?
      && trace[i].command.requestId == trace[j].command.requestId
    ensures i == j
  {
    BootSound(prerollMs, clock);
    RunSound(cfg, Start(prerollMs, clock), events);
  }

  /** Since the last disconnect all answers to one request id are byte-identical and go to requests
      of the same content, which is the content that ran, if any did. */
  lemma RetriesAnsweredIdentically(cfg: Config, prerollMs: int, clock: nat, events: seq<Event>, i: nat, j: nat)
    requires var trace := RunOf(cfg, prerollMs, clock, events).trace;
      i < |trace| && j < |trace| && trace[i].Answered?
      && trace[i].command.requestId == trace[j].command.requestId
    ensures var trace := RunOf(cfg, prerollMs, clock, events).trace;
      && SameRequest(trace[i].command, trace[j].command)
      && (trace[j].Answered? ==> trace[i].response == trace[j].response)
  {
    BootSound(prerollMs, clock);
    RunSound(cfg, Start(prerollMs, clock), events);
    var r := RunOf(cfg, prerollMs, clock, events);
    var cache := r.s.replay.cache;
    var (a, b) := (r.trace[i], r.trace[j]);
    assert AnsweredFrom(cache, a.command, a.response);
    var k :| 0 <= k < |cache| && SameRequest(cache[k].command, a.command) && cache[k].response == a.response;
    if b.Answered? {
      assert AnsweredFrom(cache, b.command, b.response);
      var m :| 0 <= m < |cache| && SameRequest(cache[m].command, b.command) && cache[m].response == b.response;
      assert k == m;
    } else {
      assert SameIdSameCommand(cache[k].command, b.command);
    }
  }

  /** A request whose id already ran since the last disconnect is neither run nor answered again but,
      if its content is the same and its result was kept, with the very same answer. */
  lemma RetryNeverRuns(cfg: Config, prerollMs: int, clock: nat, events: seq<Event>, i: nat,
                       size: nat, command: Command, io: DataIo)
    requires var r := RunOf(cfg, prerollMs, clock, events);
      i < |r.trace| && r.trace[i].Ran? && r.trace[i].command.requestId == command.requestId
    ensures var r := RunOf(cfg, prerollMs, clock, events);
      var effects := HandleCommand(cfg, r.s, size, command, io).1;
      effects == [] ||
      (SameRequest(r.trace[i].command, command)
       && exists k :: 0 <= k < |r.s.replay.cache| && r.s.replay.cache[k].command == r.trace[i].command
            && effects == [Answered(command, r.s.replay.cache[k].response)])
  {
    BootSound(prerollMs, clock);
    RunSound(cfg, Start(prerollMs, clock), events);
    var r := RunOf(cfg, prerollMs, clock, events);
    var k := FindResult(r.s.replay.cache, command.requestId);
    if k < |r.s.replay.cache| {
      assert SameIdSameCommand(r.s.replay.cache[k].command, r.trace[i].command);
    } else if !r.s.link.pending {
      UncachedHasNotRun(r.s.replay.cache, r.trace, command.requestId);
    }
  }

  /** In every run the replay cache holds at most 256 results, and the byte count kept beside it is
      the sum of what its entries were charged and stays within 256 KiB. */
  lemma ReplayCacheBounded(cfg: Config, prerollMs: int, clock: nat, events: seq<Event>)
    ensures var replay := RunOf(cfg, prerollMs, clock, events).s.replay;
      && |replay.cache| <= 256 && |replay.seen| <= 256
      && replay.cacheBytes == Storage(replay.cache) <= 256 * 1024
  {
    BootSound(prerollMs, clock);
    RunSound(cfg, Start(prerollMs, clock), events);
  }

  /** Successive connect attempts by updates are, in true time, at least the delay last drawn apart,
      although the client only reads the clock modulo 2^32. */
  lemma ConnectAttemptsSpaced(cfg: Config, prerollMs: int, clock: nat, events: seq<Event>, i: nat)
    requires 0 < i < |RunOf(cfg, prerollMs, clock, events).attempts|
    ensures var attempts := RunOf(cfg, prerollMs, clock, events).attempts;
      attempts[i].at - attempts[i - 1].at >= attempts[i].at - attempts[i].drawnAt >= 1000 * attempts[i].seconds
  {
    BootSound(prerollMs, clock);
    RunSound(cfg, Start(prerollMs, clock), events);
  }

  /** Over every run the delays drawn are those of the simulator's table for the same history of
      draws and stable connections. */
  lemma DrawsFollowTable(cfg: Config, prerollMs: int, clock: nat, events: seq<Event>)
    ensures var r := RunOf(cfg, prerollMs, clock, events);
      r.draws == Reconnect.TableDelays(0, r.history)
  {
    BootSound(prerollMs, clock);
    RunSound(cfg, Start(prerollMs, clock), events);
    Reconnect.FirmwareFollowsTable(RunOf(cfg, prerollMs, clock, events).history);
  }
}
