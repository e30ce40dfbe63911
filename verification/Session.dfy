/** The bridge session as a value: what each public call and each polled transport callback does
    to it. Outcomes of building and sending messages, of the command handler and of the URL
    resolver are inputs. */
module Session {
  import opened Wrappers
  import opened DeviceStates
  import Audio = AudioOutput
  import Reconnect

  const SEEN_LIMIT: nat := 256
  const CACHE_LIMIT: nat := SEEN_LIMIT
  const CACHE_BYTE_LIMIT: nat := 256 * 1024
  const MAX_JSON: nat := 16384
  const INVALID_WINDOW_MS: nat := 10000
  const INVALID_LIMIT: nat := 3
  const MAX_REPORTED: nat := 65535

  /** A built command result never exceeds the JSON limit: the builder refuses longer ones. */
  type Response = r: string | |r| <= MAX_JSON witness ""

  // ----- Messages -------------------------------------------------------------------------------

  datatype CommandName =
    | Unknown | DeviceGetStatus | DeviceGetInfo | AudioSetVolume | DisplaySetBrightness
    | DisplayShowText | AvatarSetExpression | AvatarSetBlink | HeadGetAngles | HeadSetAngles
    | HeadHome | LedSet | LedSetAll | LedClear | CameraCapture | CameraCancel | SpeechCancel

  datatype Arguments = Arguments(
    volume: int, brightness: int, text: string, durationMs: int, priority: int,
    expression: string, enabled: bool, yaw: real, pitch: real, hasSpeed: bool, speed: int,
    index: int, red: int, green: int, blue: int, captureId: string, quality: int,
    captureTimeoutMs: int)

  datatype Command = Command(
    name: CommandName, messageId: string, requestId: string, turnId: string, streamId: string,
    deviceId: string, sentAtMs: nat, arguments: Arguments)

  /** Retries differ only in the envelope: message id and sending time. */
  predicate SameRequest(a: Command, b: Command) {
    && a.name == b.name && a.requestId == b.requestId && a.turnId == b.turnId
    && a.streamId == b.streamId && a.deviceId == b.deviceId && a.arguments == b.arguments
  }

  lemma SameRequestIff(a: Command, b: Command)
    ensures SameRequest(a, b) <==> a.(messageId := b.messageId, sentAtMs := b.sentAtMs) == b
  {
  }

  datatype HelloAck = HelloAck(heartbeatIntervalMs: u32)

  datatype AudioControl =
    | StartOutput(messageId: string, stream: Audio.Stream)
    | EndOutput(messageId: string, turnId: string, streamId: string, reason: Audio.EndReason)

  datatype RemoteError = RemoteError(messageId: string, audioDecode: bool, turnId: string, streamId: string)

  datatype Parse<T> = Parsed(value: T) | BadArgument | BadMessage

  /** A text message, as every parser of the client reads it. */
  datatype Text = Text(size: nat, hello: Option<HelloAck>, cameraAck: bool,
                       audio: Parse<AudioControl>, remote: Parse<RemoteError>,
                       command: Parse<Command>)

  datatype Payload = NullData(binary: bool) | Binary(packet: Audio.Packet) | TextData(text: Text)

  // ----- Outcomes of the outside world ----------------------------------------------------------

  datatype Attempt = BuildFailed | SendFailed | Sent

  datatype Reply = NotBuilt | Built(response: Response, sent: bool)

  datatype DataIo = DataIo(endInput: Attempt, peer: Attempt, replaySent: bool, reply: Reply)

  /** `noUrl`: there is neither a configured URL nor a resolver. */
  datatype ConnectIo = ResolveFailed(noUrl: bool) | ConnectRefused | ConnectStarted

  datatype UpdateIo = UpdateIo(underrun: Attempt, overflow: Attempt, endInput: Attempt, connect: ConnectIo)

  datatype Callback =
    | Connected(helloSent: bool)
    | Disconnected
    | TransportError
    | Pong
    | Data(payload: Payload, io: DataIo)

  /** What the outside world sees of command handling. */
  datatype Effect = Ran(command: Command) | Answered(command: Command, response: Response)

  /** What the public calls return. */
  datatype ClientError = ClientOk | InvalidConfig | InvalidState | TransportFailure | ProtocolFailure

  datatype AudioInputError = InputOk | InputInvalidState | InputInvalidArgument | InputTooLarge | InputTransportFailure

  // ----- State ----------------------------------------------------------------------------------

  datatype Config = Config(hasHandler: bool, hasEnvelope: bool, maxInputMs: u32, entryBytes: nat, touch: bool)

  datatype Timer = Timer(armed: bool, started: bool, startedAt: u32)

  datatype Window = Window(startedAt: u32, count: nat)

  datatype Pending = Pending(streamId: string, packets: nat)

  const NOTHING_PENDING: Pending := Pending("", 0)

  /** A cached result. `storage` is what was charged for it; the client keeps only the total. */
  datatype Entry = Entry(command: Command, response: Response, storage: nat)

  datatype Input = Input(turnId: string, streamId: string, open: bool, timer: Timer)

  /** Playback trouble not yet reported to the bridge. */
  datatype Troubles = Troubles(underrun: Pending, overflow: Pending)

  /** Message ids seen and command results kept for retries of this connection. */
  datatype Replay = Replay(seen: seq<string>, cache: seq<Entry>, cacheBytes: nat)

  datatype Link = Link(pending: bool, scheduled: bool, scheduledAt: u32, delayMs: nat, nextDelay: nat)

  datatype Timers = Timers(stable: Timer, handshake: Timer, heartbeat: Timer, awaitingPong: bool,
                           firstUnansweredPingAt: u32)

  datatype Cancels = Cancels(recentTurn: string, localTurn: string, localStream: string)

  datatype State = State(
    device: DeviceState,
    output: Audio.Buffer,
    troubles: Troubles,
    helloAck: Option<HelloAck>,
    window: Window,
    replay: Replay,
    lastUpdateMs: u32,
    link: Link,
    timers: Timers,
    input: Input,
    cancels: Cancels)

  const IDLE_TIMER: Timer := Timer(false, false, 0)

  const NO_TROUBLES: Troubles := Troubles(NOTHING_PENDING, NOTHING_PENDING)

  function Boot(prerollMs: int): State {
    State(Booting, Audio.Fresh(prerollMs), NO_TROUBLES, None, Window(0, 0), Replay([], [], 0), 0,
          Link(false, false, 0, 0, 1), Timers(IDLE_TIMER, IDLE_TIMER, IDLE_TIMER, false, 0),
          Input("", "", false, IDLE_TIMER), Cancels("", "", ""))
  }

  function Arm(t: Timer): Timer { t.(armed := true, started := false) }

  function Disarm(t: Timer): Timer { t.(armed := false, started := false) }

  function ClosedInput(input: Input): Input {
    Input("", "", false, Disarm(input.timer))
  }

  function Move(s: State, e: DeviceEvent): State {
    s.(device := After(s.device, e))
  }

  /** The connection is given up: the next update schedules a reconnect afresh. */
  function GiveUp(s: State): State {
    s.(link := s.link.(pending := true, scheduled := false))
  }

  /** A message could not be sent: reconnect, on the schedule already running if there is one. */
  function LinkLost(s: State): State {
    s.(link := s.link.(pending := true))
  }

  // ----- Message ids and errors -----------------------------------------------------------------

  function Remembered(seen: seq<string>, id: string): seq<string> {
    if id in seen then seen
    else if |seen| == SEEN_LIMIT then seen[1..] + [id]
    else seen + [id]
  }

  function Remember(s: State, id: string): State {
    s.(replay := s.replay.(seen := Remembered(s.replay.seen, id)))
  }

  function Observe(w: Window, now: u32): (Window, bool) {
    if w.count == 0 || Elapsed(now, w.startedAt) >= INVALID_WINDOW_MS then (Window(now, 1), false)
    else
      var count := if w.count < INVALID_LIMIT then w.count + 1 else w.count;
      (w.(count := count), count >= INVALID_LIMIT)
  }

  function ReportPeerError(cfg: Config, s: State, attempt: Attempt): State {
    var sent := s.helloAck.Some? && cfg.hasEnvelope && attempt.Sent?;
    var (window, terminal) := Observe(s.window, s.lastUpdateMs);
    var t := s.(window := window);
    if !sent || terminal then GiveUp(t) else t
  }

  // ----- Audio input ----------------------------------------------------------------------------

  function EndInput(cfg: Config, s: State, attempt: Attempt): (State, bool) {
    if !s.input.open || s.device != Listening || !cfg.hasEnvelope then (s, false)
    else match attempt
      case BuildFailed => (s, false)
      case SendFailed => (LinkLost(s), false)
      case Sent => (Move(s.(input := ClosedInput(s.input)), InputEnded), true)
  }

  function EndInputError(cfg: Config, s: State, attempt: Attempt): (e: AudioInputError)
    ensures e.InputOk? <==> EndInput(cfg, s, attempt).1
  {
    if !s.input.open || s.device != Listening || !cfg.hasEnvelope then InputInvalidState
    else match attempt
      case BuildFailed => InputInvalidArgument
      case SendFailed => InputTransportFailure
      case Sent => InputOk
  }

  /** Barge-in: local speech cancels the playback in progress. */
  function InterruptPlayback(s: State): State {
    var stream := s.output.stream;
    Move(s.(cancels := Cancels(stream.turnId, stream.turnId, stream.streamId),
            output := Audio.Clear(s.output), troubles := NO_TROUBLES), BargeInTriggered)
  }

  function BeginInput(cfg: Config, s: State, turnId: string, streamId: string, attempt: Attempt): (State, bool) {
    var bargeIn := s.device == Speaking;
    if (s.device != Idle && !bargeIn) || s.input.open || !cfg.hasEnvelope || attempt.BuildFailed? then
      (s, false)
    else
      var s := if bargeIn then InterruptPlayback(s) else s;
      if attempt.SendFailed? then (LinkLost(s), false)
      else
        var s := if bargeIn then s else Move(s, LocalInputAccepted);
        (s.(input := Input(turnId, streamId, true, Arm(s.input.timer))), true)
  }

  function BeginInputError(cfg: Config, s: State, attempt: Attempt): AudioInputError {
    if (s.device != Idle && s.device != Speaking) || s.input.open || !cfg.hasEnvelope then InputInvalidState
    else match attempt
      case BuildFailed => InputInvalidArgument
      case SendFailed => InputTransportFailure
      case Sent => InputOk
  }

  /** A message of the open session that changes nothing but may fail to leave: an input packet,
      a touch event or a camera completion. */
  function SendOnline(s: State, allowed: bool, attempt: Attempt): State {
    if allowed && attempt.SendFailed? then LinkLost(s) else s
  }

  predicate MaySendInput(s: State, size: nat) {
    s.input.open && s.device == Listening && 0 < size <= Audio.MAX_PACKET_BYTES
  }

  function SendInputError(s: State, size: nat, sent: bool): AudioInputError {
    if !s.input.open || s.device != Listening then InputInvalidState
    else if size > Audio.MAX_PACKET_BYTES then InputTooLarge
    else if size == 0 then InputInvalidArgument
    else if !sent then InputTransportFailure
    else InputOk
  }

  /** The error of a message that may be sent or not, and is then built and sent or not. */
  function SendError(allowed: bool, attempt: Attempt): ClientError {
    if !allowed then InvalidState
    else match attempt
      case BuildFailed => ProtocolFailure
      case SendFailed => TransportFailure
      case Sent => ClientOk
  }

  predicate MaySendEvent(cfg: Config, s: State) {
    Online(s.device) && s.helloAck.Some? && cfg.hasEnvelope
  }

  // ----- Audio output ---------------------------------------------------------------------------

  function NoteOverflow(t: Troubles, streamId: string): Troubles {
    var q := if t.overflow.streamId != streamId then Pending(streamId, 0) else t.overflow;
    t.(overflow := if q.packets < MAX_REPORTED then q.(packets := q.packets + 1) else q)
  }

  function NoteUnderrun(t: Troubles, streamId: string, added: nat): Troubles {
    var q := if t.underrun.streamId != streamId then Pending(streamId, 0) else t.underrun;
    t.(underrun := q.(packets := if q.packets + added < MAX_REPORTED then q.packets + added else MAX_REPORTED))
  }

  function HandleBinary(cfg: Config, s: State, packet: Audio.Packet, peer: Attempt): State {
    var (output, status) := Audio.Push(s.output, packet);
    var streamId := s.output.stream.streamId;
    var t := s.(output := output,
                troubles := if status.QueueOverflow? && streamId != "" then NoteOverflow(s.troubles, streamId)
                            else s.troubles);
    if status.InvalidState? || status.PacketTooLarge? || status.InvalidArgument? then
      ReportPeerError(cfg, t, peer)
    else t
  }

  function HandleOutputStart(cfg: Config, s: State, stream: Audio.Stream, io: DataIo): State {
    var (s, ended) := if s.input.open then EndInput(cfg, s, io.endInput) else (s, true);
    if !ended then s else StartPlayback(cfg, s, stream, io.peer)
  }

  function StartPlayback(cfg: Config, s: State, stream: Audio.Stream, peer: Attempt): State {
    var (output, status) := Audio.Start(s.output, stream);
    if status != Audio.Ok then ReportPeerError(cfg, s, peer)
    else if Transition(s.device, PlaybackStarted).None? then
      ReportPeerError(cfg, s.(output := Audio.Clear(output)), peer)
    else Move(s.(output := output, cancels := s.cancels.(recentTurn := "")), PlaybackStarted)
  }

  function HandleOutputEnd(cfg: Config, s: State, turnId: string, streamId: string,
                           reason: Audio.EndReason, peer: Attempt): State {
    if turnId == s.cancels.localTurn && streamId == s.cancels.localStream then s
    else
      var (output, status) := Audio.Finish(s.output, turnId, streamId, reason);
      if status != Audio.Ok then ReportPeerError(cfg, s.(output := output), peer)
      else
        var t := s.(output := output,
                    cancels := if reason.Cancelled? then s.cancels.(recentTurn := turnId) else s.cancels);
        if reason.Completed? then t else Move(t, PlaybackEnded)
  }

  function HandleAudioControl(cfg: Config, s: State, control: AudioControl, io: DataIo): State {
    if control.messageId in s.replay.seen then s
    else
      var s := Remember(s, control.messageId);
      match control
      case StartOutput(_, stream) => HandleOutputStart(cfg, s, stream, io)
      case EndOutput(_, turnId, streamId, reason) => HandleOutputEnd(cfg, s, turnId, streamId, reason, io.peer)
  }

  function HandleRemoteError(s: State, error: RemoteError): State {
    if error.messageId in s.replay.seen then s
    else
      var s := Remember(s, error.messageId);
      if error.audioDecode && s.input.open && error.turnId == s.input.turnId
         && error.streamId == s.input.streamId then
        Move(s.(input := ClosedInput(s.input)), InputEnded)
      else s
  }

  predicate MayReportDecodeFailure(cfg: Config, s: State) {
    (s.device == Idle || s.device == Listening || s.device == Speaking) && s.helloAck.Some? && cfg.hasEnvelope
  }

  function DecodeFailure(cfg: Config, s: State, attempt: Attempt): State {
    var s := s.(output := Audio.Clear(s.output), troubles := NO_TROUBLES);
    var s := if s.device == Speaking then Move(s, PlaybackEnded) else s;
    SendOnline(s, (s.device == Idle || s.device == Listening) && s.helloAck.Some? && cfg.hasEnvelope, attempt)
  }

  function PopOutput(s: State): (State, Option<Audio.Packet>) {
    var (output, packet) := Audio.Deliver(s.output, Audio.Accepts);
    (s.(output := output), packet)
  }

  function DeliverOutput(s: State, downstreamIdle: bool, consumerAccepts: bool): (State, Option<Audio.Packet>) {
    var consumer := if consumerAccepts then Audio.Accepts else Audio.Declines;
    var (output, packet) :=
      if downstreamIdle || s.output.queue != [] then Audio.Deliver(s.output, consumer) else (s.output, None);
    var streamId := s.output.stream.streamId;
    var added := output.underflows - s.output.underflows;
    (s.(output := output,
        troubles := if added > 0 && streamId != "" then NoteUnderrun(s.troubles, streamId, added) else s.troubles),
     packet)
  }

  function AcknowledgeOutput(s: State): (State, bool) {
    if s.device != Speaking || !s.output.DeliveryComplete() then (s, false)
    else
      var (output, status) :=
        Audio.AcknowledgePlayback(s.output, s.output.stream.turnId, s.output.stream.streamId);
      if status != Audio.Ok then (s.(output := output), false)
      else (Move(s.(output := output), PlaybackEnded), Transition(s.device, PlaybackEnded).Some?)
  }

  // ----- Commands -------------------------------------------------------------------------------

  /** Index of the first cached result of a request id, or the cache's size. */
  function FindResult(cache: seq<Entry>, requestId: string): (k: nat)
    ensures k <= |cache|
    ensures k < |cache| ==> cache[k].command.requestId == requestId
    ensures forall i :: 0 <= i < k ==> cache[i].command.requestId != requestId
  {
    if cache == [] || cache[0].command.requestId == requestId then 0
    else 1 + FindResult(cache[1..], requestId)
  }

  /** Carry a new command out: the state afterwards and whether the command handler ran. */
  function Execute(s: State, command: Command): (State, bool) {
    if command.name == SpeechCancel then
      var (output, status) := Audio.CancelTurn(s.output, command.turnId);
      var repeated := status.InvalidState? && s.cancels.recentTurn == command.turnId;
      if status != Audio.Ok && !repeated then (s.(output := output), false)
      else
        var t := s.(output := output, cancels := s.cancels.(recentTurn := ""));
        (if t.device == Speaking then Move(t, PlaybackEnded) else t, true)
    else (s, true)
  }

  /** Room for the largest result is reserved before anything is executed. */
  predicate HasRoom(replay: Replay, charged: nat) {
    |replay.cache| < CACHE_LIMIT && replay.cacheBytes + charged + MAX_JSON <= CACHE_BYTE_LIMIT
  }

  function Keep(replay: Replay, e: Entry): Replay {
    replay.(cacheBytes := replay.cacheBytes + e.storage, cache := replay.cache + [e])
  }

  function AnswerRetry(cfg: Config, s: State, original: Entry, command: Command, io: DataIo): (State, seq<Effect>) {
    var s := Remember(s, command.messageId);
    if !SameRequest(original.command, command) then (ReportPeerError(cfg, s, io.peer), [])
    else if io.replaySent then (s, [Answered(command, original.response)])
    else (GiveUp(s), [])
  }

  function RunNew(s: State, charged: nat, command: Command, reply: Reply): (State, seq<Effect>) {
    var (s, ran) := Execute(Remember(s, command.messageId), command);
    var effects := if ran then [Ran(command)] else [];
    match reply
    case NotBuilt => (LinkLost(s), effects)
    case Built(response, sent) =>
      if !sent then (LinkLost(s), effects)
      else (s.(replay := Keep(s.replay, Entry(command, response, charged + |response|))),
            effects + [Answered(command, response)])
  }

  /** What becomes of a well-formed command. */
  datatype Verdict = Unavailable | Retry(k: nat) | Ignored | Full | New

  function Classify(cfg: Config, s: State, size: nat, command: Command): (v: Verdict)
    ensures v.Retry? ==> v.k < |s.replay.cache|
  {
    var k := FindResult(s.replay.cache, command.requestId);
    if !cfg.hasHandler || !cfg.hasEnvelope then Unavailable
    else if k < |s.replay.cache| then Retry(k)
    else if s.link.pending || command.messageId in s.replay.seen then Ignored
    else if !HasRoom(s.replay, size + cfg.entryBytes) then Full
    else New
  }

  function HandleCommand(cfg: Config, s: State, size: nat, command: Command, io: DataIo): (State, seq<Effect>) {
    match Classify(cfg, s, size, command)
    case Unavailable => (ReportPeerError(cfg, s, io.peer), [])
    case Retry(k) => AnswerRetry(cfg, s, s.replay.cache[k], command, io)
    case Ignored => (s, [])
    case Full => (GiveUp(ReportPeerError(cfg, s, io.peer)), [])
    case New => RunNew(s, size + cfg.entryBytes, command, io.reply)
  }

  // ----- Transport callbacks --------------------------------------------------------------------

  function HandleText(cfg: Config, s: State, text: Text, io: DataIo): (State, seq<Effect>) {
    if text.cameraAck then (s, [])
    else if text.audio.Parsed? then (HandleAudioControl(cfg, s, text.audio.value, io), [])
    else if text.remote.Parsed? then (HandleRemoteError(s, text.remote.value), [])
    else if text.command.Parsed? then HandleCommand(cfg, s, text.size, text.command.value, io)
    else (ReportPeerError(cfg, s, io.peer), [])
  }

  function HandleHello(s: State, payload: Payload): State {
    if payload.TextData? && payload.text.hello.Some? && Transition(s.device, HelloAcknowledged).Some? then
      Move(s.(helloAck := payload.text.hello,
              timers := s.timers.(handshake := Disarm(s.timers.handshake), stable := Arm(s.timers.stable),
                                  heartbeat := Arm(s.timers.heartbeat))), HelloAcknowledged)
    else s
  }

  function HandleData(cfg: Config, s: State, payload: Payload, io: DataIo): (State, seq<Effect>) {
    if s.device == ConnectingBridge then (HandleHello(s, payload), [])
    else if !Online(s.device) then (s, [])
    else match payload
      case NullData(_) => (ReportPeerError(cfg, s, io.peer), [])
      case Binary(packet) => (HandleBinary(cfg, s, packet, io.peer), [])
      case TextData(text) => HandleText(cfg, s, text, io)
  }

  function HandleDisconnect(s: State): State {
    GiveUp(Move(s.(helloAck := None, output := Audio.Clear(s.output), troubles := NO_TROUBLES,
                   input := ClosedInput(s.input), cancels := Cancels("", "", ""),
                   timers := s.timers.(stable := Disarm(s.timers.stable), handshake := Disarm(s.timers.handshake),
                                       heartbeat := Disarm(s.timers.heartbeat), awaitingPong := false),
                   window := Window(0, 0), replay := Replay([], [], 0)), BridgeDisconnected))
  }

  function Deliver(cfg: Config, s: State, callback: Callback): (State, seq<Effect>) {
    match callback
    case Connected(helloSent) =>
      (if helloSent then s.(timers := s.timers.(handshake := Arm(s.timers.handshake))) else LinkLost(s), [])
    case Disconnected => (HandleDisconnect(s), [])
    case TransportError => (HandleDisconnect(s), [])
    case Pong =>
      (if s.timers.heartbeat.armed then s.(timers := s.timers.(awaitingPong := false)) else s, [])
    case Data(payload, io) => HandleData(cfg, s, payload, io)
  }

  // ----- Update ---------------------------------------------------------------------------------

  /** What remains pending, and whether the connection is to be given up, after one attempt to
      report buffer events that nothing else touches meanwhile. */
  function ReportPending(cfg: Config, s: State, p: Pending, attempt: Attempt): (Pending, bool) {
    if !Online(s.device) || s.helloAck.None? || !cfg.hasEnvelope || p.streamId == "" || p.packets == 0 then (p, false)
    else match attempt
      case BuildFailed => (NOTHING_PENDING, false)
      case SendFailed => (p, true)
      case Sent => (NOTHING_PENDING, false)
  }

  function ReportBufferEvents(cfg: Config, s: State, io: UpdateIo): State {
    var (underrun, failed) := ReportPending(cfg, s, s.troubles.underrun, io.underrun);
    var (overflow, failed') := ReportPending(cfg, s, s.troubles.overflow, io.overflow);
    s.(troubles := Troubles(underrun, overflow),
       link := s.link.(pending := s.link.pending || failed || failed'))
  }

  function TickInput(cfg: Config, s: State, now: u32, attempt: Attempt): State {
    if !s.input.timer.armed then s
    else if !s.input.timer.started then s.(input := s.input.(timer := Timer(true, true, now)))
    else if Elapsed(now, s.input.timer.startedAt) >= cfg.maxInputMs then EndInput(cfg, s, attempt).0
    else s
  }

  function TickHandshake(s: State, now: u32): State {
    var t := s.timers.handshake;
    if !t.armed then s
    else if !t.started then s.(timers := s.timers.(handshake := Timer(true, true, now)))
    else if Elapsed(now, t.startedAt) >= 5000 then GiveUp(s.(timers := s.timers.(handshake := Disarm(t))))
    else s
  }

  function TickHeartbeat(s: State, now: u32): State {
    var t := s.timers.heartbeat;
    if !t.armed || s.helloAck.None? then s
    else if !t.started then s.(timers := s.timers.(heartbeat := Timer(true, true, now)))
    else if s.timers.awaitingPong && Elapsed(now, s.timers.firstUnansweredPingAt) >= 45000 then
      GiveUp(s.(timers := s.timers.(heartbeat := t.(armed := false), awaitingPong := false)))
    else if Elapsed(now, t.startedAt) >= s.helloAck.value.heartbeatIntervalMs then
      s.(timers := s.timers.(
           firstUnansweredPingAt := if s.timers.awaitingPong then s.timers.firstUnansweredPingAt else now,
           awaitingPong := true, heartbeat := t.(startedAt := now)))
    else s
  }

  /** The connection has been up for the stable time: the backoff starts over. */
  predicate StableReached(s: State, now: u32) {
    var t := s.timers.stable;
    t.armed && s.helloAck.Some? && t.started && Elapsed(now, t.startedAt) >= 30000
  }

  function TickStable(s: State, now: u32): State {
    var t := s.timers.stable;
    if !t.armed || s.helloAck.None? then s
    else if !t.started then s.(timers := s.timers.(stable := Timer(true, true, now)))
    else if StableReached(s, now) then
      s.(link := s.link.(nextDelay := 1), timers := s.timers.(stable := Disarm(t)))
    else s
  }

  function ReconnectNow(s: State, io: ConnectIo): State {
    if s.device != ConnectingBridge then s
    else match io
      case ResolveFailed(_) => LinkLost(s)
      case ConnectRefused => GiveUp(s)
      case ConnectStarted => s.(link := s.link.(pending := false, scheduled := false))
  }

  /** The reconnect part of an update draws a delay, waits for it, or attempts to connect. */
  datatype Schedule = Quiet | Draws | Waits | Attempts

  function ScheduleOf(link: Link, now: u32): Schedule {
    if !link.pending then Quiet
    else if !link.scheduled then Draws
    else if Elapsed(now, link.scheduledAt) < link.delayMs then Waits
    else Attempts
  }

  function TickReconnect(s: State, now: u32, io: ConnectIo): State {
    match ScheduleOf(s.link, now)
    case Draws =>
      s.(link := Link(true, true, now, s.link.nextDelay * 1000, Reconnect.Doubled(s.link.nextDelay)))
    case Attempts => ReconnectNow(s.(link := s.link.(scheduled := false)), io)
    case _ => s
  }

  /** What an update does after delivering callbacks and before looking at how long the connection
      has been up. */
  function TickTimers(cfg: Config, s: State, now: u32, io: UpdateIo): State {
    TickHeartbeat(TickHandshake(TickInput(cfg, ReportBufferEvents(cfg, s, io), now, io.endInput), now), now)
  }

  function Tick(cfg: Config, s: State, now: u32, io: UpdateIo): State {
    TickReconnect(TickStable(TickTimers(cfg, s, now, io), now), now, io.connect)
  }

  /** Callbacks polled by one update, in order. */
  function DeliverAll(cfg: Config, s: State, callbacks: seq<Callback>): (State, seq<Effect>) {
    if callbacks == [] then (s, [])
    else
      var n := |callbacks| - 1;
      var (s, effects) := DeliverAll(cfg, s, callbacks[..n]);
      var (s, more) := Deliver(cfg, s, callbacks[n]);
      (s, effects + more)
  }

  function Update(cfg: Config, s: State, now: u32, callbacks: seq<Callback>, io: UpdateIo): (State, seq<Effect>) {
    var (s, effects) := DeliverAll(cfg, s.(lastUpdateMs := now), callbacks);
    (Tick(cfg, s, now, io), effects)
  }

  // ----- Connecting -----------------------------------------------------------------------------

  function Initialize(s: State, configOk: bool): State {
    Move(s, if configOk then InitializationSucceeded else HardwareOrConfigFailure)
  }

  function InitializeError(s: State, configOk: bool): ClientError {
    if !configOk then InvalidConfig
    else if Transition(s.device, InitializationSucceeded).None? then InvalidState
    else ClientOk
  }

  function ConnectError(allowed: bool, io: ConnectIo): ClientError {
    if !allowed then InvalidState
    else match io
      case ResolveFailed(noUrl) => if noUrl then InvalidConfig else TransportFailure
      case ConnectRefused => TransportFailure
      case ConnectStarted => ClientOk
  }

  function WifiUp(s: State, io: ConnectIo): State {
    if s.device != ConnectingWifi then s
    else
      var s := Move(s, WifiConnected);
      s.(link := s.link.(pending := !io.ConnectStarted?, scheduled := false))
  }
}
