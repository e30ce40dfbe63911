/** The bridge client as an object. Its handlers do to its fields what the session steps say; its
    public calls record their steps, and its invariant is that the fields are those of the run
    recorded so far. So what is proved of every run holds of the client after every call. */
module BridgeClients {
  import opened Wrappers
  import opened DeviceStates
  import opened Session
  import Audio = AudioOutput
  import Reconnect
  import Runs = SessionRuns

  class BridgeClient {
    const cfg: Config
    const stateMachine: DeviceStateMachine
    const audioOutput: Audio.AudioOutputBuffer
    const backoff: Reconnect.ReconnectBackoff
    var troubles: Troubles
    var helloAck: Option<HelloAck>
    var window: Window
    var seen: seq<string>
    var cache: seq<Entry>
    var cacheBytes: nat
    var lastUpdateMs: u32
    var reconnectPending: bool
    var reconnectScheduled: bool
    var reconnectScheduledAt: u32
    var reconnectDelayMs: nat
    var stable: Timer
    var handshake: Timer
    var heartbeat: Timer
    var awaitingPong: bool
    var firstUnansweredPingAt: u32
    var input: Input
    var cancels: Cancels
    ghost const prerollMs: int
    ghost const powerUp: nat             // true clock at power-up, in milliseconds
    ghost var history: seq<Runs.Event>   // the steps of all public calls so far

    /** The run this client has had. */
    ghost function Run(): Runs.Run
      reads this
    {
      Runs.RunOf(cfg, prerollMs, powerUp, history)
    }

    ghost predicate Valid()
      reads this, stateMachine, audioOutput, backoff
    {
      View() == Run().s && Runs.Inv(Run())
    }

    ghost function View(): State
      reads this, stateMachine, audioOutput, backoff
    {
      State(stateMachine.state, audioOutput.View(), troubles, helloAck, window,
            Replay(seen, cache, cacheBytes), lastUpdateMs,
            Link(reconnectPending, reconnectScheduled, reconnectScheduledAt, reconnectDelayMs, backoff.nextDelay),
            Timers(stable, handshake, heartbeat, awaitingPong, firstUnansweredPingAt), input, cancels)
    }

    constructor (config: Config, prerollMs: int, ghost powerUp: nat)
      ensures cfg == config && this.prerollMs == prerollMs && this.powerUp == powerUp
      ensures Valid() && history == [] && View() == Boot(prerollMs)
      ensures fresh(stateMachine) && fresh(audioOutput) && fresh(backoff)
    {
      cfg := config;
      stateMachine := new DeviceStateMachine();
      audioOutput := new Audio.AudioOutputBuffer(prerollMs);
      backoff := new Reconnect.ReconnectBackoff();
      troubles, helloAck, window := NO_TROUBLES, None, Window(0, 0);
      seen, cache, cacheBytes, lastUpdateMs := [], [], 0, 0;
      reconnectPending, reconnectScheduled, reconnectScheduledAt, reconnectDelayMs := false, false, 0, 0;
      stable, handshake, heartbeat := IDLE_TIMER, IDLE_TIMER, IDLE_TIMER;
      awaitingPong, firstUnansweredPingAt := false, 0;
      input, cancels := Input("", "", false, IDLE_TIMER), Cancels("", "", "");
      this.prerollMs, this.powerUp, history := prerollMs, powerUp, [];
      new;
      Runs.BootSound(prerollMs, powerUp);
    }

    // ----- Helpers ------------------------------------------------------------------------------

    method ObserveInvalidMessage() returns (terminal: bool)
      modifies this`window
      ensures (window, terminal) == Observe(old(window), lastUpdateMs)
    {
      if window.count == 0 || Elapsed(lastUpdateMs, window.startedAt) >= INVALID_WINDOW_MS {
        window := Window(lastUpdateMs, 1);
        return false;
      }
      if window.count < INVALID_LIMIT {
        window := window.(count := window.count + 1);
      }
      return window.count >= INVALID_LIMIT;
    }

    method GiveUpConnection()
      modifies this`reconnectPending, this`reconnectScheduled
      ensures View() == GiveUp(old(View()))
    {
      reconnectPending := true;
      reconnectScheduled := false;
    }

    method PeerError(attempt: Attempt)
      modifies this`window, this`reconnectPending, this`reconnectScheduled
      ensures View() == ReportPeerError(cfg, old(View()), attempt)
    {
      var sent := helloAck.Some? && cfg.hasEnvelope && attempt == Sent;
      var terminal := ObserveInvalidMessage();
      if !sent || terminal {
        reconnectPending := true;
        reconnectScheduled := false;
      }
    }

    method RememberMessageId(id: string)
      modifies this`seen
      ensures View() == Remember(old(View()), id)
    {
      if id in seen {
        return;
      }
      if |seen| == SEEN_LIMIT {
        seen := seen[1..];
      }
      seen := seen + [id];
    }

    /** Linear search for the first cached result of a request id. */
    method FindCached(requestId: string) returns (k: nat)
      ensures k == FindResult(cache, requestId)
    {
      k := 0;
      while k < |cache| && cache[k].command.requestId != requestId
        invariant k <= |cache|
        invariant FindResult(cache, requestId) == k + FindResult(cache[k..], requestId)
      {
        k := k + 1;
      }
    }

    // ----- Audio input --------------------------------------------------------------------------

    method CloseInput(attempt: Attempt) returns (error: AudioInputError)
      modifies this`input, this`reconnectPending, stateMachine
      ensures View() == EndInput(cfg, old(View()), attempt).0
      ensures error == EndInputError(cfg, old(View()), attempt)
    {
      if !input.open || stateMachine.state != Listening || !cfg.hasEnvelope {
        return InputInvalidState;
      }
      if attempt == BuildFailed {
        return InputInvalidArgument;
      }
      if attempt == SendFailed {
        reconnectPending := true;
        return InputTransportFailure;
      }
      input := Input("", "", false, Disarm(input.timer));
      var moved := stateMachine.Apply(InputEnded);
      error := if moved then InputOk else InputInvalidState;
    }

    method InterruptOutput()
      modifies this`cancels, this`troubles, stateMachine, audioOutput
      ensures View() == InterruptPlayback(old(View()))
    {
      var stream := audioOutput.stream;
      cancels := Cancels(stream.turnId, stream.turnId, stream.streamId);
      DropOutput();
      var _ := stateMachine.Apply(BargeInTriggered);
    }

    method OpenInput(turnId: string, streamId: string, attempt: Attempt) returns (error: AudioInputError)
      modifies this, stateMachine, audioOutput
      ensures View() == BeginInput(cfg, old(View()), turnId, streamId, attempt).0 && history == old(history)
      ensures error == BeginInputError(cfg, old(View()), attempt)
    {
      var bargeIn := stateMachine.state == Speaking;
      if (stateMachine.state != Idle && !bargeIn) || input.open || !cfg.hasEnvelope {
        return InputInvalidState;
      }
      if attempt == BuildFailed {
        return InputInvalidArgument;
      }
      if bargeIn {
        InterruptOutput();
      }
      if attempt == SendFailed {
        reconnectPending := true;
        return InputTransportFailure;
      }
      if !bargeIn {
        var moved := stateMachine.Apply(LocalInputAccepted);
        if !moved {
          return InputInvalidState;
        }
      }
      input := Input(turnId, streamId, true, Arm(input.timer));
      return InputOk;
    }

    method TransmitPacket(size: nat, sent: bool) returns (error: AudioInputError)
      modifies this`reconnectPending
      ensures View() == SendOnline(old(View()), MaySendInput(old(View()), size), if sent then Sent else SendFailed)
      ensures error == SendInputError(old(View()), size, sent)
    {
      if !input.open || stateMachine.state != Listening {
        return InputInvalidState;
      }
      if size > Audio.MAX_PACKET_BYTES {
        return InputTooLarge;
      }
      if size == 0 {
        return InputInvalidArgument;
      }
      if !sent {
        reconnectPending := true;
        return InputTransportFailure;
      }
      return InputOk;
    }

    /** A touch or camera event. */
    method SendEvent(offered: bool, attempt: Attempt) returns (error: ClientError)
      modifies this`reconnectPending
      ensures View() == SendOnline(old(View()), MaySendEvent(cfg, old(View())) && offered, attempt)
      ensures error == SendError(MaySendEvent(cfg, old(View())) && offered, attempt)
    {
      if !Online(stateMachine.state) || helloAck.None? || !cfg.hasEnvelope || !offered {
        return InvalidState;
      }
      error := Conclude(attempt);
    }

    /** The end of every call that builds a message and sends it. */
    method Conclude(attempt: Attempt) returns (error: ClientError)
      modifies this`reconnectPending
      ensures View() == SendOnline(old(View()), true, attempt) && error == SendError(true, attempt)
    {
      if attempt == BuildFailed {
        return ProtocolFailure;
      }
      if attempt == SendFailed {
        reconnectPending := true;
        return TransportFailure;
      }
      return ClientOk;
    }

    // ----- Audio output -------------------------------------------------------------------------

    method OnBinary(packet: Audio.Packet, peer: Attempt)
      modifies this, audioOutput
      ensures View() == HandleBinary(cfg, old(View()), packet, peer) && history == old(history)
    {
      var streamId := audioOutput.stream.streamId;
      var status := audioOutput.Append(packet);
      if status == Audio.QueueOverflow && streamId != "" {
        if troubles.overflow.streamId != streamId {
          troubles := troubles.(overflow := Pending(streamId, 0));
        }
        if troubles.overflow.packets < MAX_REPORTED {
          troubles := troubles.(overflow := troubles.overflow.(packets := troubles.overflow.packets + 1));
        }
      }
      if status == Audio.InvalidState {
        PeerError(peer);
      } else if status == Audio.PacketTooLarge || status == Audio.InvalidArgument {
        PeerError(peer);
      }
    }

    method OnOutputStart(stream: Audio.Stream, io: DataIo)
      modifies this, stateMachine, audioOutput
      ensures View() == HandleOutputStart(cfg, old(View()), stream, io) && history == old(history)
    {
      if input.open {
        var error := CloseInput(io.endInput);
        if error != InputOk {
          return;
        }
      }
      var accepted := false;
      var status := audioOutput.Begin(stream);
      if status == Audio.Ok {
        var moved := stateMachine.Apply(PlaybackStarted);
        if !moved {
          audioOutput.ClearContext();
        } else {
          cancels := cancels.(recentTurn := "");
          accepted := true;
        }
      }
      if !accepted {
        PeerError(io.peer);
      }
    }

    method OnOutputEnd(turnId: string, streamId: string, reason: Audio.EndReason, peer: Attempt)
      modifies this, stateMachine, audioOutput
      ensures View() == HandleOutputEnd(cfg, old(View()), turnId, streamId, reason, peer) && history == old(history)
    {
      if turnId == cancels.localTurn && streamId == cancels.localStream {
        return;
      }
      var status := audioOutput.End(turnId, streamId, reason);
      if status == Audio.Ok && reason == Audio.Cancelled {
        cancels := cancels.(recentTurn := turnId);
      }
      if status != Audio.Ok {
        PeerError(peer);
      } else if reason != Audio.Completed {
        var _ := stateMachine.Apply(PlaybackEnded);
      }
    }

    method DropOutput()
      modifies this`troubles, audioOutput
      ensures View() == old(View()).(output := Audio.Clear(old(audioOutput.View())), troubles := NO_TROUBLES)
    {
      audioOutput.ClearContext();
      troubles := NO_TROUBLES;
    }

    method DropUndecodable(attempt: Attempt) returns (error: ClientError)
      modifies this`troubles, this`reconnectPending, stateMachine, audioOutput
      ensures View() == DecodeFailure(cfg, old(View()), attempt)
      ensures error == SendError(MayReportDecodeFailure(cfg, old(View())), attempt)
    {
      DropOutput();
      hide Audio.Clear;
      if stateMachine.state == Speaking {
        var _ := stateMachine.Apply(PlaybackEnded);
      }
      if (stateMachine.state != Idle && stateMachine.state != Listening) || helloAck.None? || !cfg.hasEnvelope {
        return InvalidState;
      }
      error := Conclude(attempt);
    }

    method TakePacket() returns (packet: Option<Audio.Packet>)
      modifies audioOutput
      ensures (View(), packet) == PopOutput(old(View()))
    {
      packet := audioOutput.DeliverNext(Audio.Accepts);
    }

    method OfferPacket(downstreamIdle: bool, consumerAccepts: bool)
      returns (packet: Option<Audio.Packet>)
      modifies this`troubles, audioOutput
      ensures (View(), packet) == DeliverOutput(old(View()), downstreamIdle, consumerAccepts)
    {
      packet := None;
      var previous := audioOutput.underflowCount;
      var streamId := audioOutput.stream.streamId;
      if downstreamIdle || |audioOutput.queue| > 0 {
        packet := audioOutput.DeliverNext(if consumerAccepts then Audio.Accepts else Audio.Declines);
      }
      var current := audioOutput.underflowCount;
      if current > previous && streamId != "" {
        if troubles.underrun.streamId != streamId {
          troubles := troubles.(underrun := Pending(streamId, 0));
        }
        var sum := troubles.underrun.packets + (current - previous);
        troubles := troubles.(underrun := troubles.underrun.(packets := if sum < MAX_REPORTED then sum else MAX_REPORTED));
      }
    }

    method FinishPlayback() returns (ok: bool)
      modifies stateMachine, audioOutput
      ensures (View(), ok) == AcknowledgeOutput(old(View()))
    {
      if stateMachine.state != Speaking
         || !(audioOutput.contextActive && audioOutput.ended && audioOutput.queue == []) {
        return false;
      }
      var status := audioOutput.Acknowledge(audioOutput.stream.turnId, audioOutput.stream.streamId);
      if status != Audio.Ok {
        return false;
      }
      ok := stateMachine.Apply(PlaybackEnded);
    }

    // ----- Commands -----------------------------------------------------------------------------

    method ExecuteCommand(command: Command) returns (ran: bool)
      modifies this`cancels, stateMachine, audioOutput
      ensures (View(), ran) == Execute(old(View()), command)
    {
      if command.name == SpeechCancel {
        var status := audioOutput.Cancel(command.turnId);
        var repeated := status == Audio.InvalidState && cancels.recentTurn == command.turnId;
        if status != Audio.Ok && !repeated {
          return false;
        }
        cancels := cancels.(recentTurn := "");
        if stateMachine.state == Speaking {
          var _ := stateMachine.Apply(PlaybackEnded);
        }
      }
      return true;
    }

    method OnRetry(k: nat, command: Command, io: DataIo) returns (effects: seq<Effect>)
      requires k < |cache|
      modifies this`seen, this`window, this`reconnectPending, this`reconnectScheduled
      ensures (View(), effects) == AnswerRetry(cfg, old(View()), old(cache[k]), command, io)
    {
      effects := [];
      RememberMessageId(command.messageId);
      if !SameRequest(cache[k].command, command) {
        PeerError(io.peer);
      } else if !io.replaySent {
        GiveUpConnection();
      } else {
        effects := [Answered(command, cache[k].response)];
      }
    }

    method KeepResult(e: Entry)
      modifies this`cache, this`cacheBytes
      ensures View() == old(View()).(replay := Keep(old(View()).replay, e))
    {
      cacheBytes := cacheBytes + e.storage;
      cache := cache + [e];
    }

    method OnNewCommand(charged: nat, command: Command, reply: Reply) returns (effects: seq<Effect>)
      modifies this`seen, this`cache, this`cacheBytes, this`reconnectPending, this`cancels, stateMachine, audioOutput
      ensures (View(), effects) == RunNew(old(View()), charged, command, reply)
    {
      RememberMessageId(command.messageId);
      var ran := ExecuteCommand(command);
      effects := if ran then [Ran(command)] else [];
      if reply == NotBuilt || !reply.sent {
        reconnectPending := true;
        return;
      }
      KeepResult(Entry(command, reply.response, charged + |reply.response|));
      effects := effects + [Answered(command, reply.response)];
    }

    method OnCommand(size: nat, command: Command, io: DataIo) returns (effects: seq<Effect>)
      modifies this, stateMachine, audioOutput
      ensures (View(), effects) == HandleCommand(cfg, old(View()), size, command, io) && history == old(history)
    {
      hide AnswerRetry, RunNew, ReportPeerError;
      effects := [];
      if !cfg.hasHandler || !cfg.hasEnvelope {
        PeerError(io.peer);
        return;
      }
      var k := FindCached(command.requestId);
      if k != |cache| {
        effects := OnRetry(k, command, io);
        return;
      }
      if reconnectPending || command.messageId in seen {
        return;
      }
      var charged := size + cfg.entryBytes;
      if |cache| >= CACHE_LIMIT || cacheBytes + charged + MAX_JSON > CACHE_BYTE_LIMIT {
        PeerError(io.peer);
        GiveUpConnection();
        return;
      }
      effects := OnNewCommand(charged, command, io.reply);
    }

    // ----- Transport callbacks ------------------------------------------------------------------

    method OnAudioControl(control: AudioControl, io: DataIo)
      modifies this, stateMachine, audioOutput
      ensures View() == HandleAudioControl(cfg, old(View()), control, io) && history == old(history)
    {
      if control.messageId in seen {
        return;
      }
      RememberMessageId(control.messageId);
      match control
      case StartOutput(_, stream) => OnOutputStart(stream, io);
      case EndOutput(_, turnId, streamId, reason) => OnOutputEnd(turnId, streamId, reason, io.peer);
    }

    method OnRemoteError(error: RemoteError)
      modifies this, stateMachine
      ensures View() == HandleRemoteError(old(View()), error) && history == old(history)
    {
      if error.messageId in seen {
        return;
      }
      RememberMessageId(error.messageId);
      if error.audioDecode && input.open && error.turnId == input.turnId && error.streamId == input.streamId {
        input := Input("", "", false, Disarm(input.timer));
        var _ := stateMachine.Apply(InputEnded);
      }
    }

    method OnText(text: Text, io: DataIo) returns (effects: seq<Effect>)
      modifies this, stateMachine, audioOutput
      ensures (View(), effects) == HandleText(cfg, old(View()), text, io) && history == old(history)
    {
      effects := [];
      if text.cameraAck {
        return;
      }
      if text.audio.Parsed? {
        OnAudioControl(text.audio.value, io);
        return;
      }
      if text.remote.Parsed? {
        OnRemoteError(text.remote.value);
        return;
      }
      if !text.command.Parsed? {
        PeerError(io.peer);
        return;
      }
      effects := OnCommand(text.size, text.command.value, io);
    }

    method OnHello(payload: Payload)
      modifies this`helloAck, this`handshake, this`stable, this`heartbeat, stateMachine
      ensures View() == HandleHello(old(View()), payload)
    {
      if !payload.TextData? || payload.text.hello.None? {
        return;
      }
      var moved := stateMachine.Apply(HelloAcknowledged);
      if !moved {
        return;
      }
      helloAck := payload.text.hello;
      handshake := Disarm(handshake);
      stable := Arm(stable);
      heartbeat := Arm(heartbeat);
    }

    method OnData(payload: Payload, io: DataIo) returns (effects: seq<Effect>)
      modifies this, stateMachine, audioOutput
      ensures (View(), effects) == HandleData(cfg, old(View()), payload, io) && history == old(history)
    {
      effects := [];
      if stateMachine.state == ConnectingBridge {
        OnHello(payload);
        return;
      }
      if !Online(stateMachine.state) {
        return;
      }
      match payload
      case NullData(_) => PeerError(io.peer);
      case Binary(packet) => OnBinary(packet, io.peer);
      case TextData(text) => effects := OnText(text, io);
    }

    method DropStreams()
      modifies this`troubles, this`input, this`cancels, audioOutput
      ensures View() == old(View()).(output := Audio.Clear(old(audioOutput.View())), troubles := NO_TROUBLES,
                                     input := ClosedInput(old(input)), cancels := Cancels("", "", ""))
    {
      DropOutput();
      input := Input("", "", false, Disarm(input.timer));
      cancels := Cancels("", "", "");
    }

    method StopTimers()
      modifies this`stable, this`handshake, this`heartbeat, this`awaitingPong, this`window
      ensures stable == Disarm(old(stable)) && handshake == Disarm(old(handshake))
      ensures heartbeat == Disarm(old(heartbeat)) && !awaitingPong && window == Window(0, 0)
    {
      stable := Disarm(stable);
      handshake := Disarm(handshake);
      heartbeat := Disarm(heartbeat);
      window := Window(0, 0);
      awaitingPong := false;
    }

    method ForgetSession()
      modifies this`helloAck, this`seen, this`cache, this`cacheBytes
      ensures View() == old(View()).(helloAck := None, replay := Replay([], [], 0))
    {
      helloAck := None;
      seen := [];
      cache := [];
      cacheBytes := 0;
    }

    method OnDisconnected()
      modifies this, stateMachine, audioOutput
      ensures View() == HandleDisconnect(old(View())) && history == old(history)
    {
      DropStreams();
      StopTimers();
      ForgetSession();
      var _ := stateMachine.Apply(BridgeDisconnected);
      GiveUpConnection();
    }

    method OnCallback(callback: Callback) returns (effects: seq<Effect>)
      modifies this, stateMachine, audioOutput
      ensures (View(), effects) == Session.Deliver(cfg, old(View()), callback) && history == old(history)
    {
      effects := [];
      match callback
      case Connected(helloSent) =>
        if helloSent {
          handshake := Arm(handshake);
        } else {
          reconnectPending := true;
        }
      case Disconnected => OnDisconnected();
      case TransportError => OnDisconnected();
      case Pong =>
        if heartbeat.armed {
          awaitingPong := false;
        }
      case Data(payload, io) => effects := OnData(payload, io);
    }

    // ----- Connecting and updating --------------------------------------------------------------

    method Begin(configOk: bool) returns (error: ClientError)
      modifies stateMachine
      ensures View() == Initialize(old(View()), configOk) && error == InitializeError(old(View()), configOk)
    {
      var moved := stateMachine.Apply(if configOk then InitializationSucceeded else HardwareOrConfigFailure);
      error := if !configOk then InvalidConfig else if moved then ClientOk else InvalidState;
    }

    method ConnectFirst(io: ConnectIo) returns (error: ClientError)
      modifies this`reconnectPending, this`reconnectScheduled, stateMachine
      ensures View() == WifiUp(old(View()), io)
      ensures error == ConnectError(old(View()).device == ConnectingWifi, io)
    {
      if stateMachine.state != ConnectingWifi {
        return InvalidState;
      }
      var _ := stateMachine.Apply(DeviceStates.WifiConnected);
      if io.ResolveFailed? {
        reconnectPending := true;
        reconnectScheduled := false;
        return if io.noUrl then InvalidConfig else TransportFailure;
      }
      reconnectPending := false;
      reconnectScheduled := false;
      if io == ConnectRefused {
        reconnectPending := true;
        return TransportFailure;
      }
      return ClientOk;
    }

    method ReconnectBridge(io: ConnectIo) returns (error: ClientError)
      modifies this`reconnectPending, this`reconnectScheduled
      ensures View() == ReconnectNow(old(View()), io)
      ensures error == ConnectError(old(View()).device == ConnectingBridge, io)
    {
      if stateMachine.state != ConnectingBridge {
        return InvalidState;
      }
      if io.ResolveFailed? {
        reconnectPending := true;
        return if io.noUrl then InvalidConfig else TransportFailure;
      }
      reconnectPending := false;
      reconnectScheduled := false;
      if io == ConnectRefused {
        reconnectPending := true;
        return TransportFailure;
      }
      return ClientOk;
    }

    /** Report one pending buffer event; the locked regions of the source are run without
        interference here (see BufferEvents for the interleaved form). */
    method SendPending(pending: Pending, attempt: Attempt) returns (left: Pending)
      modifies this`reconnectPending
      ensures var (p, failed) := ReportPending(cfg, old(View()), pending, attempt);
        left == p && reconnectPending == (old(reconnectPending) || failed)
    {
      left := pending;
      if !Online(stateMachine.state) || helloAck.None? || !cfg.hasEnvelope {
        return;
      }
      if pending.streamId == "" || pending.packets == 0 {
        return;
      }
      if attempt == BuildFailed {
        left := NOTHING_PENDING;
        return;
      }
      if attempt == SendFailed {
        reconnectPending := true;
        return;
      }
      left := NOTHING_PENDING;
    }

    method ReportTroubles(io: UpdateIo)
      modifies this`troubles, this`reconnectPending
      ensures View() == ReportBufferEvents(cfg, old(View()), io)
    {
      var underrun := SendPending(troubles.underrun, io.underrun);
      var overflow := SendPending(troubles.overflow, io.overflow);
      troubles := Troubles(underrun, overflow);
    }

    method UpdateInput(now: u32, attempt: Attempt)
      modifies this`input, this`reconnectPending, stateMachine
      ensures View() == TickInput(cfg, old(View()), now, attempt)
    {
      if input.timer.armed {
        if !input.timer.started {
          input := input.(timer := Timer(true, true, now));
        } else if Elapsed(now, input.timer.startedAt) >= cfg.maxInputMs {
          var _ := CloseInput(attempt);
        }
      }
    }

    method UpdateHandshake(now: u32)
      modifies this`handshake, this`reconnectPending, this`reconnectScheduled
      ensures View() == TickHandshake(old(View()), now)
    {
      if handshake.armed {
        if !handshake.started {
          handshake := Timer(true, true, now);
        } else if Elapsed(now, handshake.startedAt) >= 5000 {
          handshake := Disarm(handshake);
          reconnectPending := true;
          reconnectScheduled := false;
        }
      }
    }

    method UpdateHeartbeat(now: u32)
      modifies this`heartbeat, this`awaitingPong, this`firstUnansweredPingAt, this`reconnectPending,
               this`reconnectScheduled
      ensures View() == TickHeartbeat(old(View()), now)
    {
      if heartbeat.armed && helloAck.Some? {
        if !heartbeat.started {
          heartbeat := Timer(true, true, now);
        } else if awaitingPong && Elapsed(now, firstUnansweredPingAt) >= 45000 {
          heartbeat := heartbeat.(armed := false);
          awaitingPong := false;
          reconnectPending := true;
          reconnectScheduled := false;
        } else if Elapsed(now, heartbeat.startedAt) >= helloAck.value.heartbeatIntervalMs {
          if !awaitingPong {
            firstUnansweredPingAt := now;
            awaitingPong := true;
          }
          heartbeat := heartbeat.(startedAt := now);
        }
      }
    }

    method UpdateStable(now: u32)
      modifies this`stable, backoff
      ensures View() == TickStable(old(View()), now)
    {
      if stable.armed && helloAck.Some? {
        if !stable.started {
          stable := Timer(true, true, now);
        } else if Elapsed(now, stable.startedAt) >= 30000 {
          backoff.ObserveStableConnection(30);
          stable := Disarm(stable);
        }
      }
    }

    method UpdateReconnect(now: u32, io: ConnectIo)
      modifies this`reconnectPending, this`reconnectScheduled, this`reconnectScheduledAt,
               this`reconnectDelayMs, backoff
      ensures View() == TickReconnect(old(View()), now, io)
    {
      if !reconnectPending {
        return;
      }
      if !reconnectScheduled {
        var delay := backoff.NextDelaySeconds();
        reconnectDelayMs := delay * 1000;
        reconnectScheduledAt := now;
        reconnectScheduled := true;
        return;
      }
      if Elapsed(now, reconnectScheduledAt) < reconnectDelayMs {
        return;
      }
      reconnectScheduled := false;
      var _ := ReconnectBridge(io);
    }

    method PollCallbacks(callbacks: seq<Callback>) returns (effects: seq<Effect>)
      modifies this, stateMachine, audioOutput
      ensures (View(), effects) == DeliverAll(cfg, old(View()), callbacks) && history == old(history)
    {
      effects := [];
      for i := 0 to |callbacks|
        invariant (View(), effects) == DeliverAll(cfg, old(View()), callbacks[..i]) && history == old(history)
      {
        assert callbacks[..i + 1][..i] == callbacks[..i];
        var more := OnCallback(callbacks[i]);
        effects := effects + more;
      }
      assert callbacks[..|callbacks|] == callbacks;
    }

    method RunTimers(now: u32, io: UpdateIo)
      modifies this, stateMachine, backoff
      ensures View() == Tick(cfg, old(View()), now, io) && history == old(history)
    {
      hide View;
      ReportTroubles(io);
      UpdateInput(now, io.endInput);
      UpdateHandshake(now);
      UpdateHeartbeat(now);
      UpdateStable(now);
      UpdateReconnect(now, io.connect);
    }

    method RunUpdate(now: u32, callbacks: seq<Callback>, io: UpdateIo) returns (effects: seq<Effect>)
      modifies this, stateMachine, audioOutput, backoff
      ensures (View(), effects) == Update(cfg, old(View()), now, callbacks, io) && history == old(history)
    {
      hide Tick, DeliverAll;
      lastUpdateMs := now;
      effects := PollCallbacks(callbacks);
      RunTimers(now, io);
    }

    // ----- The public calls ---------------------------------------------------------------------

    /** The steps of a call join the history of the client. */
    ghost method Record(events: seq<Runs.Event>)
      requires Runs.Inv(Run()) && View() == Runs.StepAll(cfg, Run(), events).s
      modifies this`history
      ensures Valid() && history == old(history) + events && View() == old(View())
      ensures Run() == Runs.StepAll(cfg, old(Run()), events)
    {
      Runs.RunSound(cfg, Run(), events);
      Runs.RunOfConcat(cfg, prerollMs, powerUp, history, events);
      history := history + events;
    }

    method InitializeClient(configOk: bool) returns (error: ClientError)
      requires Valid()
      modifies this, stateMachine
      ensures Valid() && history == old(history) + [Runs.Initialized(configOk)]
      ensures error == InitializeError(old(View()), configOk)
    {
      hide Runs.Inv;
      error := Begin(configOk);
      Record([Runs.Initialized(configOk)]);
    }

    method WifiConnected(io: ConnectIo) returns (error: ClientError)
      requires Valid()
      modifies this, stateMachine
      ensures Valid() && history == old(history) + [Runs.WifiReady(io)]
      ensures error == ConnectError(old(stateMachine.state) == ConnectingWifi, io)
    {
      hide Runs.Inv;
      error := ConnectFirst(io);
      Record([Runs.WifiReady(io)]);
    }

    method Reconnect(io: ConnectIo) returns (error: ClientError)
      requires Valid()
      modifies this
      ensures Valid() && history == old(history) + [Runs.ReconnectAsked(io)]
      ensures error == ConnectError(stateMachine.state == ConnectingBridge, io)
    {
      hide Runs.Inv;
      error := ReconnectBridge(io);
      Record([Runs.ReconnectAsked(io)]);
    }

    method BeginAudioInput(turnId: string, streamId: string, attempt: Attempt) returns (error: AudioInputError)
      requires Valid()
      modifies this, stateMachine, audioOutput
      ensures Valid() && history == old(history) + [Runs.InputBegun(turnId, streamId, attempt)]
      ensures error == BeginInputError(cfg, old(View()), attempt)
      ensures error == InputOk ==> input.open && stateMachine.state == Listening
    {
      hide Runs.Inv;
      error := OpenInput(turnId, streamId, attempt);
      Record([Runs.InputBegun(turnId, streamId, attempt)]);
    }

    method SendAudioInputPacket(size: nat, sent: bool) returns (error: AudioInputError)
      requires Valid()
      modifies this
      ensures Valid() && history == old(history) + [Runs.InputPacketSent(size, sent)]
      ensures error == SendInputError(old(View()), size, sent)
    {
      hide Runs.Inv;
      error := TransmitPacket(size, sent);
      Record([Runs.InputPacketSent(size, sent)]);
    }

    method EndAudioInput(attempt: Attempt) returns (error: AudioInputError)
      requires Valid()
      modifies this, stateMachine
      ensures Valid() && history == old(history) + [Runs.InputEndAsked(attempt)]
      ensures error == EndInputError(cfg, old(View()), attempt)
      ensures error == InputOk ==> !input.open && stateMachine.state == Idle
    {
      hide Runs.Inv;
      error := CloseInput(attempt);
      Record([Runs.InputEndAsked(attempt)]);
    }

    method SendTouchTap(attempt: Attempt) returns (error: ClientError)
      requires Valid()
      modifies this
      ensures Valid() && history == old(history) + [Runs.TouchSent(attempt)]
      ensures error == SendError(MaySendEvent(cfg, old(View())) && cfg.touch, attempt)
    {
      hide Runs.Inv;
      error := SendEvent(cfg.touch, attempt);
      Record([Runs.TouchSent(attempt)]);
    }

    method SendCameraCompleted(attempt: Attempt) returns (error: ClientError)
      requires Valid()
      modifies this
      ensures Valid() && history == old(history) + [Runs.CameraSent(attempt)]
      ensures error == SendError(MaySendEvent(cfg, old(View())), attempt)
    {
      hide Runs.Inv;
      error := SendEvent(true, attempt);
      Record([Runs.CameraSent(attempt)]);
    }

    method ReportAudioDecodeFailure(attempt: Attempt) returns (error: ClientError)
      requires Valid()
      modifies this, stateMachine, audioOutput
      ensures Valid() && history == old(history) + [Runs.DecodeFailed(attempt)]
      ensures error == SendError(MayReportDecodeFailure(cfg, old(View())), attempt)
    {
      hide Runs.Inv;
      error := DropUndecodable(attempt);
      Record([Runs.DecodeFailed(attempt)]);
    }

    method PopAudioOutputPacket() returns (packet: Option<Audio.Packet>)
      requires Valid()
      modifies this, audioOutput
      ensures Valid() && history == old(history) + [Runs.OutputPopped]
      ensures packet == PopOutput(old(View())).1
    {
      hide Runs.Inv;
      packet := TakePacket();
      Record([Runs.OutputPopped]);
    }

    method DeliverAudioOutputPacket(downstreamIdle: bool, consumerAccepts: bool) returns (packet: Option<Audio.Packet>)
      requires Valid()
      modifies this, audioOutput
      ensures Valid() && history == old(history) + [Runs.OutputOffered(downstreamIdle, consumerAccepts)]
      ensures packet == DeliverOutput(old(View()), downstreamIdle, consumerAccepts).1
    {
      hide Runs.Inv;
      packet := OfferPacket(downstreamIdle, consumerAccepts);
      Record([Runs.OutputOffered(downstreamIdle, consumerAccepts)]);
    }

    method AcknowledgeAudioOutputPlayback() returns (ok: bool)
      requires Valid()
      modifies this, stateMachine, audioOutput
      ensures Valid() && history == old(history) + [Runs.OutputAcknowledged]
      ensures ok == AcknowledgeOutput(old(View())).1
      ensures ok ==> !audioOutput.contextActive && stateMachine.state == Idle
    {
      hide Runs.Inv;
      ok := FinishPlayback();
      Record([Runs.OutputAcknowledged]);
    }

    /** An update `advance` milliseconds of true time after the last. Its effects continue what the
        handler and the bridge have seen since the last disconnect. */
    method UpdateClient(now: u32, callbacks: seq<Callback>, io: UpdateIo, ghost advance: nat)
      returns (effects: seq<Effect>)
      requires Valid() && now == (Run().clock + advance) % TICKS
      modifies this, stateMachine, audioOutput, backoff
      ensures Valid() && history == old(history) + Runs.UpdateSteps(advance, callbacks, io)
      ensures Run().clock == old(Run().clock) + advance
      ensures Runs.Continues(Run().trace, old(Run().trace), effects, Runs.AnyEnds(callbacks))
    {
      hide Valid, View, Update, Runs.RunOf, Runs.StepAll, Runs.UpdateSteps, Runs.Continues, Runs.Inv;
      ghost var before := Run();
      ghost var steps := Runs.UpdateSteps(advance, callbacks, io);
      ValidRun();
      effects := RunUpdate(now, callbacks, io);
      HistoryFixesRun(before);
      Runs.UpdateIsSteps(cfg, before, advance, callbacks, io);
      Runs.UpdateTrace(cfg, before, advance, callbacks, io);
      Record(steps);
    }

    lemma ValidRun()
      requires Valid()
      ensures View() == Run().s && Runs.Inv(Run())
    {
    }

    lemma HistoryFixesRun(run: Runs.Run)
      requires run == Runs.RunOf(cfg, prerollMs, powerUp, history)
      ensures run == Run()
    {
    }

    // ----- What holds of the client after every call --------------------------------------------

    /** Connection state, stream state and flags agree, and the replay cache is within its limits. */
    lemma ClientAgrees()
      requires Valid()
      ensures (stateMachine.state == Speaking <==> audioOutput.contextActive)
      ensures input.open ==> stateMachine.state == Listening && input.timer.armed
      ensures stateMachine.state == Listening ==> input.open || reconnectPending
      ensures helloAck.Some? <==> Online(stateMachine.state)
      ensures |cache| <= 256 && cacheBytes == Runs.Storage(cache) <= 256 * 1024 && |seen| <= 256
    {
    }

    /** The command handler ran at most once per request id since the last disconnect. */
    lemma ClientRunsOnce(i: nat, j: nat)
      requires Valid() && i < j < |Run().trace| && Run().trace[i].Ran? && Run().trace[j].Ran?
      ensures Run().trace[i].command.requestId != Run().trace[j].command.requestId
    {
    }
  }
}
