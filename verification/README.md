# Verified model of the StackChan bridge device

A StackChan robot talks to its Hermes bridge over one WebSocket: it says hello, answers commands,
streams microphone audio up and plays speech coming down, and reconnects when the link fails. This
project models the device side of that protocol and the codecs and small policies around it, and
proves what they keep over every run. `dafny verify dfyconfig.toml` checks all of it.

How the files fit together:

- `Session.dfy` gives each public call, each polled callback and each part of an update as one step
  on a session state; `SessionRuns.dfy` proves what every run of such steps keeps, and
  `Heartbeats.dfy` that a silent bridge is given up in time. `SessionProgress.dfy`,
  `SessionTimers.dfy`, `SessionStreams.dfy` and `SessionErrors.dfy` prove what the session gets done:
  commands, connections, timers, audio and bad messages. `BridgeClient.dfy` is the client object:
  its handlers change its fields exactly as the steps say, each public call joins its steps to a
  ghost history, and the class invariant is that the fields are those of the run so far.
  `DeviceStates.dfy`, `AudioOutput.dfy` and `Reconnect.dfy` are the objects it is made of.
- `BufferEvents.dfy` and `Transport.dfy` are the two places where threads interleave: the reports of
  dropped packets and underflows, which take their lock twice, and the callback queue between socket
  tasks and the thread that owns the client.
- `WebSocketReceive.dfy`, `WebSocketClient.dfy`, `WebSocketServer.dfy`, `WebSocketSend.dfy`,
  `Handshake.dfy` and `Base64.dfy` cover RFC 6455; `HttpChunked.dfy` and `HttpBodies.dfy` cover
  section 7.1 of RFC 9112; `Ble.dfy` covers the setup channel's fragmentation; `BoundedText.dfy` the
  UTF-8 validator.
- `Vad.dfy`, `RateLimits.dfy` and `HeadTouch.dfy` are policies with run properties of their own.
- `Wrappers.dfy` and `Arithmetic.dfy` hold shared types and facts.

Where the source mutates an object, the model has a class whose methods are proved against a step
function; the run theorems are about sequences of steps. What the outside world decides (whether a
message could be built or sent, what a message parses to, the clock, thread scheduling) is an input
of a step, so every theorem holds for all of it.

Some natural expectations fail, and the model says exactly when:

- A binary message sent in several frames is a protocol error (`WebSocketSend.MessageArrivesExactly`).
- A message that is sent over BLE in one frame and looks like a fragment is not received, unless it
  completes itself (`Ble.ReceivedIff`, `Ble.LooksLikeFragment`).
- A connect() that fails early puts a preceding close() out of force, so that callbacks of the closed
  connection run (`Transport.CloseStopsCallbacksExactly`, `Transport.ClosedCallbackRuns`).
- The voice detector's own configuration does not keep its two levels in order
  (`Vad.HysteresisExactly`, `Vad.LevelsCanCross`); the bridge settings check the ratios.
- An unreadable chunk size ends a body as if it were complete (`HttpBodies.CompleteIff`,
  `HttpBodies.UnreadableSizeCompletes`).

## Model

| member | source | states |
|---|---|---|
| SessionRuns.AgreementAlways | firmware/components/stackchan_bridge_client/session.cpp:76-362 | After every step of every run, from any power-up clock reading: Speaking iff an output context is active; an open input implies Listening and equals its armed timer; Listening implies an open input or a pending reconnect; a hello acknowledgement is held iff the state is Idle, Listening or Speaking. |
| SessionRuns.AcceptedStreamPlays | firmware/components/stackchan_bridge_client/session.cpp:148-172 | In every reachable state, once the buffer accepts a stream the state machine accepts the start of playback, so the reset at line 160 cannot be reached. |
| SessionRuns.CommandsRunAtMostOnce | firmware/components/stackchan_bridge_client/session.cpp:253-326 | In every run, since the last disconnect the command handler ran at most once per request id, whatever failed to be built or sent meanwhile. |
| SessionRuns.RetriesAnsweredIdentically | firmware/components/stackchan_bridge_client/session.cpp:253-326 | Since the last disconnect all answers to one request id are byte-identical and go only to requests of the same content, which is also the content that ran under that id. |
| SessionRuns.RetryNeverRuns | firmware/components/stackchan_bridge_client/session.cpp:253-276 | In every reachable state, a further request whose id already ran is neither run nor answered, or, if its content is the same and its result was kept, answered with exactly the stored bytes; other content under that id never runs and is never answered. |
| SessionRuns.ReplayCacheBounded | firmware/components/stackchan_bridge_client/session.cpp:277-326 | In every run at most 256 results and 256 message ids are kept, and the byte count kept beside the cache is the sum charged for its entries and never exceeds 256 KiB. |
| SessionRuns.ReservedRoomSuffices | firmware/components/stackchan_bridge_client/session.cpp:277-292 | If the room looked for before a command runs is there, then keeping its result, whatever it turns out to be, stays within both cache limits and keeps request ids distinct. |
| SessionRuns.UpdateTrace | firmware/components/stackchan_bridge_client/session.cpp:427-430 | The effects of an update are those an observer of the run records: all of them unless the connection ended, and else the ones since. |
| SessionRuns.ConnectAttemptsSpaced | firmware/components/stackchan_bridge_client/session.cpp:482-496 | Successive connect attempts of updates are, in true time, at least the delay last drawn apart, although the client reads the clock modulo 2^32. |
| SessionRuns.DrawsFollowTable | firmware/components/stackchan_bridge_client/session.cpp:472-490 | Over every run the delays drawn are those of the simulator's table for the same history of draws and 30-second connections. |
| Heartbeats.SilentBridgeIsGivenUp | firmware/components/stackchan_bridge_client/session.cpp:453-471 | In every run, once an update sends a ping that stays unanswered, whatever else happens on that connection: for 45 seconds of true time the client keeps waiting, and the first update after them, before the 32-bit clock comes around, leaves the connection given up. |
| Heartbeats.WaitingRun | firmware/components/stackchan_bridge_client/session.cpp:76-327 | No message, call or timer other than a pong or a disconnect takes an online session offline or withdraws a decision to reconnect, and before 45 seconds none disturbs the waiting for a pong. |
| SessionRuns.UpdateIsSteps | firmware/components/stackchan_bridge_client/session.cpp:427-496 | One update of the client is a stretch of a run (clock, polled callbacks, timers), so what holds of runs holds across updates. |
| SessionRuns.RunSound | firmware/components/stackchan_bridge_client/session.cpp:76-496 | The joint invariant of agreement, command history and reconnect schedule is kept by every finite sequence of steps. |
| SessionRuns.NewSound | firmware/components/stackchan_bridge_client/session.cpp:274-326 | A command that is not cached, ran or not, answered or lost, leaves the command history sound: a lost result leaves the connection given up, so its id cannot run again. |
| SessionProgress.NewCommandIsCarriedOut | firmware/components/stackchan_bridge_client/session.cpp:274-326 | In every run, a new command that nothing stands against is carried out: the handler runs, unless it cancels speech that is neither playing nor was cancelled last, and the result is answered exactly if it was built and sent, else the connection is given up. |
| SessionProgress.RetryIsAnswered | firmware/components/stackchan_bridge_client/session.cpp:253-273 | In every run, a retry of the same content as an earlier answer of this connection gains exactly that answer, byte for byte, if it can be sent, else the connection is given up. |
| SessionProgress.ReusedIdIsRefused | firmware/components/stackchan_bridge_client/session.cpp:260-267 | In every run, other content under a cached request id is neither run nor answered and is reported as a peer error. |
| Session.SameRequestIff | firmware/components/stackchan_bridge_client/command.cpp:395-418 | Two commands are the same request exactly if they differ in nothing but message id and sending time. |
| SessionProgress.LostConnectionComesBack | firmware/components/stackchan_bridge_client/session.cpp:331-406 | In every run, a connection lost while online comes back: the next update draws a delay, an update after it connects, a hello brings the client online with its timers armed; a failed connect stays pending to be drawn again. |
| SessionProgress.PowerUpComesOnline | firmware/components/stackchan_bridge_client/session.cpp:34-99 | From power-up, good configuration, Wi-Fi, a link and a hello bring the client online. |
| SessionProgress.HelloBringsUp | firmware/components/stackchan_bridge_client/session.cpp:55-99 | A client that waits for a hello arms the handshake when the link comes up, and with the hello is idle, holds the acknowledgement, and has the handshake disarmed and the stable and heartbeat timers armed. |
| SessionProgress.ConnectsWherePossible | firmware/components/stackchan_bridge_client/session.cpp:364-406 | A first connect and a reconnect are attempted exactly in the states they belong to, and leave a reconnect pending exactly if they fail. |
| SessionProgress.UnsentHelloIsGivenUp | firmware/components/stackchan_bridge_client/session.cpp:55-60 | A hello that cannot be sent leaves a reconnect pending and no handshake to wait for. |
| SessionProgress.CameraAckIsHarmless | firmware/components/stackchan_bridge_client/session.cpp:134-139 | The acknowledgement of a camera report changes nothing of the session. |
| SessionTimers.MissingHelloIsGivenUp | firmware/components/stackchan_bridge_client/session.cpp:441-452 | A started handshake lasts 5 seconds of true time through any number of updates, and the first update after them gives the connection up and draws a delay. |
| SessionTimers.StableConnectionResetsBackoff | firmware/components/stackchan_bridge_client/session.cpp:472-481 | A connection up for 30 seconds of true time, and not less, makes the next delay drawn 1 second. |
| SessionTimers.HeartbeatIsSent | firmware/components/stackchan_bridge_client/session.cpp:453-471 | After the agreed interval of true time, and not earlier, an update sends a ping and begins to wait for its answer. |
| SessionTimers.PongEndsWaiting | firmware/components/stackchan_bridge_client/session.cpp:71-75 | A pong ends the waiting. |
| SessionTimers.LongInputIsEnded | firmware/components/stackchan_bridge_client/session.cpp:433-440 | An input goes on until its longest duration of true time has passed, and the first update from then on ends it if the end can be sent. |
| SessionTimers.UpdatesStartTimers | firmware/components/stackchan_bridge_client/session.cpp:441-475 | Armed handshake, stable and heartbeat timers start with the next update, at its true time. |
| SessionStreams.InputOpens | firmware/components/stackchan_bridge_client/session.cpp:543-598 | In every run, an idle or speaking session opens an input whose start can be sent; a speaking one drops the playback and remembers its stream as cancelled by itself. |
| SessionStreams.FailedInputStaysClosed | firmware/components/stackchan_bridge_client/session.cpp:555-587 | In every run, an input whose start cannot be built or sent stays closed; a failed send gives the connection up, and a playback has been dropped for it. |
| SessionStreams.FailedSendsAreNoticed | firmware/components/stackchan_bridge_client/session.cpp:600-710 | In every run, packets and events change nothing, except that one that may be sent and then is not leaves a reconnect pending. |
| SessionStreams.RemoteErrorEndsInput | firmware/components/stackchan_bridge_client/session.cpp:218-234 | In every run, a remote decode error ends exactly the input it names. |
| SessionStreams.PlaybackStarts | firmware/components/stackchan_bridge_client/session.cpp:148-172 | In every run, a new start message makes the session speak if the buffer takes the stream and an open input can be ended first. |
| SessionStreams.PacketArrives | firmware/components/stackchan_bridge_client/session.cpp:108-131 | In every run, a packet the buffer accepts joins the queue and nothing else changes. |
| SessionStreams.OfferDelivers | firmware/components/stackchan_bridge_client/session.cpp:760-796 | In every run, an offer hands out the oldest packet exactly if the stream has ended or met its preroll, and counts and notes an underflow exactly if the device below ran dry on a stream still being received. |
| SessionStreams.OutputEnds | firmware/components/stackchan_bridge_client/session.cpp:173-212 | In every run, the end of the stream being received lets playback finish if it was completed, and drops it at once otherwise, remembering a cancelled turn. |
| SessionStreams.LateEndIsIgnored | firmware/components/stackchan_bridge_client/session.cpp:174-179 | In every run, the late end of a stream the session cancelled itself changes nothing but the ids seen. |
| SessionStreams.AcknowledgementEndsPlayback | firmware/components/stackchan_bridge_client/session.cpp:804-817 | In every run, an acknowledgement ends playback exactly if the stream ended and everything was delivered, and changes nothing otherwise. |
| SessionStreams.DecodeFailureEndsPlayback | firmware/components/stackchan_bridge_client/session.cpp:712-722 | In every run, a decode failure while speaking drops the playback and what was pending of it. |
| SessionStreams.CancelEndsPlayback | firmware/components/stackchan_bridge_client/session.cpp:294-312 | In every run, a new speech cancellation for the turn that is playing ends the playback, whatever becomes of its result. |
| SessionErrors.BadMessageIsReported | firmware/components/stackchan_bridge_client/session.cpp:104-131 | While online, a payload that nothing takes is counted and reported, and gives the connection up exactly if the report cannot be sent, the count is full, or it was given up before. |
| SessionErrors.ThreeBadMessages | firmware/components/stackchan_bridge_client/protocol_guard.cpp:248-259 | Of three bad messages whose reports all go out, the first two never end a connection and the third does exactly if it comes within ten seconds of true time of the first. |
| SessionErrors.ControlCountsOnce | firmware/components/stackchan_bridge_client/session.cpp:143-147 | In every run, an audio control message after another one of the same id changes nothing. |
| SessionErrors.SeenCommandIsIgnored | firmware/components/stackchan_bridge_client/session.cpp:274-276 | In every run, a command whose message id was seen and whose request id is not cached changes nothing. |
| SessionErrors.RefusedControlIsReported | firmware/components/stackchan_bridge_client/session.cpp:167-207 | In every run, a new start the buffer does not take and a new end of a stream that is not being received are reported as peer errors. |
| SessionErrors.MemoryHolds | firmware/components/stackchan_bridge_client/session.cpp:521-530 | What is remembered holds the new id and all others but the oldest once 256 are held. |
| BridgeClients.BridgeClient.constructor | firmware/components/stackchan_bridge_client/session.cpp:27-32 | A new client is valid: its fields are those of a run with no steps yet. |
| BridgeClients.BridgeClient.PeerError | firmware/components/stackchan_bridge_client/session.cpp:498-513 | The invalid-message window moves on and the connection is given up when the report could not be sent or the window is full; nothing else changes. |
| BridgeClients.BridgeClient.ObserveInvalidMessage | firmware/components/stackchan_bridge_client/protocol_guard.cpp:248-259 | The window restarts after its time on the wrapping clock and otherwise counts up to its limit. |
| BridgeClients.BridgeClient.RememberMessageId | firmware/components/stackchan_bridge_client/session.cpp:515-530 | A new id joins the ids seen, which drop their oldest one at the limit; a known id changes nothing. |
| BridgeClients.BridgeClient.FindCached | firmware/components/stackchan_bridge_client/session.cpp:253-260 | The search loop finds the first cached result of a request id, or the end of the cache. |
| BridgeClients.BridgeClient.OnRetry | firmware/components/stackchan_bridge_client/session.cpp:260-273 | A cached request id is answered with the stored bytes, refused for other content, or gives the connection up; the cache is untouched. |
| BridgeClients.BridgeClient.ExecuteCommand | firmware/components/stackchan_bridge_client/session.cpp:293-315 | Whether the handler runs, and what cancelling speech does to buffer, state machine and cancellation record. |
| BridgeClients.BridgeClient.OnNewCommand | firmware/components/stackchan_bridge_client/session.cpp:292-326 | Runs the command once, and keeps its result with its charge only if it was built and sent; otherwise gives the connection up. |
| BridgeClients.BridgeClient.OnCommand | firmware/components/stackchan_bridge_client/session.cpp:249-327 | The whole decision for a parsed command, with its recorded effects; the state it leaves is the one the run theorems are about. |
| BridgeClients.BridgeClient.CloseInput | firmware/components/stackchan_bridge_client/session.cpp:622-652 | Closes the input and leaves Listening only after the end message went out; a failed send gives the connection up; the error code names the first thing that failed. |
| BridgeClients.BridgeClient.InterruptOutput | firmware/components/stackchan_bridge_client/session.cpp:566-582 | Barge-in drops the output context and its pending reports and remembers which stream was cancelled locally. |
| BridgeClients.BridgeClient.OpenInput | firmware/components/stackchan_bridge_client/session.cpp:543-598 | Opens the input with its timer armed, interrupting playback when speaking; every failure leaves the state the source leaves and returns its error code. |
| BridgeClients.BridgeClient.TransmitPacket | firmware/components/stackchan_bridge_client/session.cpp:600-620 | A packet of legal size goes out only while the input is open; each refusal has its error code; a failed send gives the connection up and nothing else changes. |
| BridgeClients.BridgeClient.SendEvent | firmware/components/stackchan_bridge_client/session.cpp:654-710 | Touch and camera events go out only online with an acknowledgement; each failure has its error code; a failed send gives the connection up and nothing else changes. |
| BridgeClients.BridgeClient.OnBinary | firmware/components/stackchan_bridge_client/session.cpp:108-132 | A packet is offered to the output buffer; an overflow is added to the pending count of the stream, saturating at 65535; other refusals are peer errors. |
| BridgeClients.BridgeClient.OnOutputStart | firmware/components/stackchan_bridge_client/session.cpp:148-172 | Ends an open input first, then starts the stream and playback together or reports a peer error. |
| BridgeClients.BridgeClient.OnOutputEnd | firmware/components/stackchan_bridge_client/session.cpp:173-212 | A late end of a locally cancelled stream changes nothing; an accepted end that is not completion ends playback at once. |
| BridgeClients.BridgeClient.OnAudioControl | firmware/components/stackchan_bridge_client/session.cpp:143-213 | A control message takes effect at most once per message id. |
| BridgeClients.BridgeClient.OnRemoteError | firmware/components/stackchan_bridge_client/session.cpp:218-234 | A remote decode error closes the input exactly when it names its turn and stream. |
| BridgeClients.BridgeClient.OnText | firmware/components/stackchan_bridge_client/session.cpp:134-327 | The order in which a text is tried as acknowledgement, audio control, remote error and command, and the peer error if it is none. |
| BridgeClients.BridgeClient.OnHello | firmware/components/stackchan_bridge_client/session.cpp:78-99 | A valid acknowledgement brings the client online with its timers armed; anything else leaves it waiting. |
| BridgeClients.BridgeClient.OnData | firmware/components/stackchan_bridge_client/session.cpp:76-133 | Dispatch by connection state and by kind of payload. |
| BridgeClients.BridgeClient.OnDisconnected | firmware/components/stackchan_bridge_client/session.cpp:331-362 | Everything that belongs to a connection is cleared and a reconnect is pending and unscheduled. |
| BridgeClients.BridgeClient.OnCallback | firmware/components/stackchan_bridge_client/session.cpp:55-76 | What each polled transport callback does to the client. |
| BridgeClients.BridgeClient.Begin | firmware/components/stackchan_bridge_client/session.cpp:34-53 | The state and error code after initialisation with a good or a bad configuration. |
| BridgeClients.BridgeClient.ConnectFirst | firmware/components/stackchan_bridge_client/session.cpp:364-387 | Only from waiting for Wi-Fi; a failed resolution or connect leaves a reconnect pending and is returned as its error code. |
| BridgeClients.BridgeClient.ReconnectBridge | firmware/components/stackchan_bridge_client/session.cpp:389-406 | Only while connecting to the bridge; a failed resolution or connect leaves a reconnect pending and is returned as its error code. |
| BridgeClients.BridgeClient.DropUndecodable | firmware/components/stackchan_bridge_client/session.cpp:712-745 | Output context, pending reports and playback end together before the fault is reported; the error code says how far the report got. |
| BridgeClients.BridgeClient.TakePacket | firmware/components/stackchan_bridge_client/session.cpp:747-758 | Hands out the oldest packet that may be played. |
| BridgeClients.BridgeClient.OfferPacket | firmware/components/stackchan_bridge_client/session.cpp:760-796 | Offers the oldest packet to the consumer and adds a new underflow to the pending count of the stream. |
| BridgeClients.BridgeClient.FinishPlayback | firmware/components/stackchan_bridge_client/session.cpp:804-817 | Ends context and playback together, only when everything was delivered. |
| BridgeClients.BridgeClient.SendPending | firmware/components/stackchan_bridge_client/session.cpp:819-867 | What is left pending after a report that nothing interferes with, and when the connection is given up. |
| BridgeClients.BridgeClient.UpdateInput | firmware/components/stackchan_bridge_client/session.cpp:433-440 | The input is ended after its longest duration on the wrapping clock. |
| BridgeClients.BridgeClient.UpdateHandshake | firmware/components/stackchan_bridge_client/session.cpp:441-452 | A handshake unanswered for 5000 ms gives the connection up. |
| BridgeClients.BridgeClient.UpdateHeartbeat | firmware/components/stackchan_bridge_client/session.cpp:453-471 | Pings are spaced by the agreed interval and a ping unanswered for 45000 ms gives the connection up. |
| BridgeClients.BridgeClient.UpdateStable | firmware/components/stackchan_bridge_client/session.cpp:472-481 | A connection of 30000 ms resets the backoff once. |
| BridgeClients.BridgeClient.UpdateReconnect | firmware/components/stackchan_bridge_client/session.cpp:482-496 | Draws a delay once, waits for it on the wrapping clock, then reconnects. |
| BridgeClients.BridgeClient.RunUpdate | firmware/components/stackchan_bridge_client/session.cpp:427-496 | A whole update: polled callbacks in order, buffer reports, timers and reconnect, as one session step. |
| BridgeClients.BridgeClient.Record | firmware/components/stackchan_bridge_client/session.cpp:427-496 | A call whose outcome is that of some steps keeps the client valid when those steps join its history. |
| BridgeClients.BridgeClient.UpdateClient | firmware/components/stackchan_bridge_client/session.cpp:427-496 | An update keeps the client valid, joins the steps of its clock, callbacks and timers to the history, and its effects are those the run records, all of them unless the connection ended meanwhile. |
| BridgeClients.BridgeClient.InitializeClient | firmware/components/stackchan_bridge_client/session.cpp:34-53 | Keeps the client valid and joins one step to its history; returns the error code. |
| BridgeClients.BridgeClient.WifiConnected | firmware/components/stackchan_bridge_client/session.cpp:364-387 | Keeps the client valid and joins one step to its history; returns the error code. |
| BridgeClients.BridgeClient.Reconnect | firmware/components/stackchan_bridge_client/session.cpp:389-406 | Keeps the client valid and joins one step to its history; returns the error code. |
| BridgeClients.BridgeClient.BeginAudioInput | firmware/components/stackchan_bridge_client/session.cpp:543-598 | Keeps the client valid and joins one step to its history; on success the input is open and the state Listening. |
| BridgeClients.BridgeClient.SendAudioInputPacket | firmware/components/stackchan_bridge_client/session.cpp:600-620 | Keeps the client valid and joins one step to its history; returns the error code. |
| BridgeClients.BridgeClient.EndAudioInput | firmware/components/stackchan_bridge_client/session.cpp:622-652 | Keeps the client valid and joins one step to its history; on success the input is closed and the state Idle. |
| BridgeClients.BridgeClient.SendTouchTap | firmware/components/stackchan_bridge_client/session.cpp:654-679 | Keeps the client valid and joins one step to its history; refused without the touch capability. |
| BridgeClients.BridgeClient.SendCameraCompleted | firmware/components/stackchan_bridge_client/session.cpp:681-710 | Keeps the client valid and joins one step to its history; returns the error code. |
| BridgeClients.BridgeClient.ReportAudioDecodeFailure | firmware/components/stackchan_bridge_client/session.cpp:712-745 | Keeps the client valid and joins one step to its history; returns the error code. |
| BridgeClients.BridgeClient.PopAudioOutputPacket | firmware/components/stackchan_bridge_client/session.cpp:747-758 | Keeps the client valid and joins one step to its history; hands out what may be played. |
| BridgeClients.BridgeClient.DeliverAudioOutputPacket | firmware/components/stackchan_bridge_client/session.cpp:760-796 | Keeps the client valid and joins one step to its history; reports what was consumed. |
| BridgeClients.BridgeClient.AcknowledgeAudioOutputPlayback | firmware/components/stackchan_bridge_client/session.cpp:804-817 | Keeps the client valid and joins one step to its history; on success no context is left and the state is Idle. |
| BridgeClients.BridgeClient.ClientAgrees | firmware/components/stackchan_bridge_client/session.cpp:76-362 | In every valid client, hence after every call: Speaking iff a context is active, an open input implies Listening and its armed timer, an acknowledgement is held iff online, and the replay cache is within its limits. |
| BridgeClients.BridgeClient.ClientRunsOnce | firmware/components/stackchan_bridge_client/session.cpp:253-326 | In every valid client, the handler runs recorded since the last disconnect have distinct request ids. |
| DeviceStates.DeviceStateMachine.Apply | firmware/components/stackchan_bridge_client/state_machine.cpp:33-125 | The state changes to the one the transition table gives and a refused event changes nothing. |
| DeviceStates.LeadsTo | firmware/components/stackchan_bridge_client/state_machine.cpp:33-125 | For each state, exactly which events in which states lead to it. |
| AudioOutput.PacketsConserved | firmware/components/stackchan_bridge_client/audio_output.cpp:235-430 | In every run the packets accepted in the current context are those delivered followed by those queued, a closed context queues nothing, every refused push is counted, and at most 32 packets wait. |
| AudioOutput.DeliveryWaitsForPreroll | firmware/components/stackchan_bridge_client/audio_output.cpp:332-394 | In every run a packet leaves only after the preroll was met or the stream ended, and it is the oldest accepted one not delivered before. |
| AudioOutput.PrerollHasRoom | firmware/components/stackchan_bridge_client/audio_output.cpp:255-280 | In every run an open buffer whose preroll is unmet accepts another well-formed packet. |
| AudioOutput.DeliversExactly | firmware/components/stackchan_bridge_client/audio_output.cpp:332-394 | In every run, a willing consumer of an active buffer gets the oldest accepted packet not delivered before exactly if there is one and the stream has ended or the accepted packets are as long as the preroll. |
| AudioOutput.AcceptsExactly | firmware/components/stackchan_bridge_client/audio_output.cpp:255-280 | In every run, a push is accepted exactly if the stream is open, the packet is of legal size and fewer than 32 accepted packets are undelivered. |
| AudioOutput.UnderflowsExactly | firmware/components/stackchan_bridge_client/audio_output.cpp:361-371 | In every run, an offer counts an underflow exactly if the stream is open with its preroll met, all is delivered, and none was counted since the last accepted push. |
| AudioOutput.EndedStreamCompletes | firmware/components/stackchan_bridge_client/audio_output.cpp:282-359 | In every run, once the end of the open stream is announced, as many offers as packets wait hand out all the rest in order, and acknowledging then closes the context. |
| AudioOutput.UnderflowOncePerPush | firmware/components/stackchan_bridge_client/audio_output.cpp:361-371 | Between any two points of a run with no accepted push between them the underflow counter rises by at most one. |
| AudioOutput.RunInv | firmware/components/stackchan_bridge_client/audio_output.cpp:235-430 | The buffer invariant behind these holds after every sequence of calls. |
| AudioOutput.AudioOutputBuffer.ClearContext | firmware/components/stackchan_bridge_client/audio_output.cpp:421-430 | The context is emptied; the counters and the configured preroll stay. |
| AudioOutput.AudioOutputBuffer.Begin | firmware/components/stackchan_bridge_client/audio_output.cpp:235-253 | A valid stream on an inactive buffer opens a fresh context; anything else is refused without change. |
| AudioOutput.AudioOutputBuffer.Append | firmware/components/stackchan_bridge_client/audio_output.cpp:255-280 | A legal packet joins the end of the queue and may meet the preroll; every refusal only counts as dropped. |
| AudioOutput.AudioOutputBuffer.End | firmware/components/stackchan_bridge_client/audio_output.cpp:282-300 | The matching open stream is marked ended, or dropped when it was not completed. |
| AudioOutput.AudioOutputBuffer.Cancel | firmware/components/stackchan_bridge_client/audio_output.cpp:302-312 | The context of the named turn is dropped, any other is left alone. |
| AudioOutput.AudioOutputBuffer.Acknowledge | firmware/components/stackchan_bridge_client/audio_output.cpp:314-330 | The matching ended and drained context is closed. |
| AudioOutput.AudioOutputBuffer.DetectUnderflow | firmware/components/stackchan_bridge_client/audio_output.cpp:361-371 | An open, started, empty stream counts one underflow until the next push. |
| AudioOutput.AudioOutputBuffer.DeliverNext | firmware/components/stackchan_bridge_client/audio_output.cpp:346-359 | The oldest playable packet is offered and removed only if it was consumed. |
| BufferEvents.ReportsNeverExceedDrops | firmware/components/stackchan_bridge_client/session.cpp:819-867 | Over every interleaving of refused pushes or underflows, resets and the snapshot, send and subtract steps, what is reported for a stream never exceeds what occurred. |
| BufferEvents.ReportsLoseNothing | firmware/components/stackchan_bridge_client/session.cpp:819-867 | For a stream whose pending count was never reset, replaced or saturated, between reports what was told plus what is pending is exactly what occurred. |
| BufferEvents.SessionNotes | firmware/components/stackchan_bridge_client/session.cpp:108-124 | Refused pushes and underflows both join the pending count in the way the interleaved model counts: for one stream at a time, saturating at 65535. |
| BufferEvents.UninterruptedReport | firmware/components/stackchan_bridge_client/session.cpp:830-867 | The small steps without interference give the report the session model makes in one step. |
| BufferEvents.ReportTellsAll | firmware/components/stackchan_bridge_client/session.cpp:830-867 | A report that goes out tells all that was pending when it began and leaves pending exactly what occurred meanwhile. |
| Reconnect.FirmwareFollowsTable | firmware/components/stackchan_bridge_client/reconnect.cpp:5-17 | For every sequence of draws and connection durations the doubling backoff yields the delays of the table. |
| Reconnect.SameDelaysFrom | simulator/src/stackchan_simulator/reconnect.py:9-26 | From any attempt number and the counter that stands for it, table and doubling form agree forever. |
| Reconnect.ReconnectBackoff.NextDelaySeconds | firmware/components/stackchan_bridge_client/reconnect.cpp:5-10 | Returns the current delay and moves to the next. |
| Reconnect.ReconnectBackoff.ObserveStableConnection | firmware/components/stackchan_bridge_client/reconnect.cpp:12-17 | A connection of 30 seconds or more resets the delay, a shorter one does not. |
| Reconnect.TableBackoff.NextDelaySeconds | simulator/src/stackchan_simulator/reconnect.py:17-20 | Returns the delay of the current attempt, the last one from the sixth on. |
| Reconnect.TableBackoff.RecordConnection | simulator/src/stackchan_simulator/reconnect.py:22-26 | Resets the attempt after a connection of the stable duration; refuses a negative duration without change. |
| Transport.CallbacksRunInOrder | firmware/main/hal/stackchan_bridge_websocket.cpp:196-236 | Over every interleaving of owner, workers and socket tasks, the callbacks that run are a subsequence of those queued, in queue order, with generations that never go back. |
| Transport.CallbacksRunInTheirConnection | firmware/main/hal/stackchan_bridge_websocket.cpp:187-213 | A callback runs only in the generation it was tagged with, and one that needs an open connection never runs while a close() is in force: until a connect() takes the next generation, or fails before taking one. |
| Transport.CloseStopsCallbacksExactly | firmware/main/hal/stackchan_bridge_websocket.cpp:124-213 | In every run, a callback that needs an open connection and was queued before the last close() runs when it comes up if and only if it belongs to the connection that was closed, no generation was taken since, and some connect() since failed before taking one. |
| Transport.ClosedCallbackRuns | firmware/main/hal/stackchan_bridge_websocket.cpp:130-141 | A concrete run in which a callback of a closed connection runs after the next connect() failed. |
| Transport.CallbacksRunExactly | firmware/main/hal/stackchan_bridge_websocket.cpp:206-212 | In every run, a taken callback runs when it comes up exactly if its generation is current, there is no shutdown, and it needs no open connection or no close() is in force. |
| Transport.PollRunsAll | firmware/main/hal/stackchan_bridge_websocket.cpp:196-213 | A poll that nothing interferes with takes all that is queued and runs, in order, exactly the callbacks that may run. |
| Transport.CallbacksAreNotLost | firmware/main/hal/stackchan_bridge_websocket.cpp:196-236 | In every run, a callback that nothing stands against still waits or has run, whatever is enqueued, polled or ended, until the owner acts. |
| Transport.QueuedExactly | firmware/main/hal/stackchan_bridge_websocket.cpp:221-236 | In every run, a callback is queued, as the last, exactly if fewer than 256 are, and otherwise raises the overflow flag. |
| Transport.OneWorkerBoundedQueue | firmware/main/hal/stackchan_bridge_websocket.cpp:124-164 | At most one connection worker runs at any time, and neither the queue nor a polled batch exceeds 256 entries. |
| Transport.DropsAreReported | firmware/main/hal/stackchan_bridge_websocket.cpp:196-236 | Whenever callbacks were dropped since a poll last looked, the next poll reports an error, and otherwise it reports none. |
| Transport.RunSound | firmware/main/hal/stackchan_bridge_websocket.cpp:124-337 | The invariant on queue order, executions and workers holds after every sequence of steps. |
| WebSocketReceive.SplitsDoNotMatter | firmware/components/stackchan_bridge_client/web_socket.cpp:248-395 | For every stream and every split into TCP chunks the events up to the first failure, and whether it fails, are those of a whole-stream decoder of sections 5.2 and 5.4 of RFC 6455. |
| WebSocketReceive.StreamFollowsReference | firmware/components/stackchan_bridge_client/web_socket.cpp:248-395 | The byte-wise receiver, handshake response included, delivers exactly what the whole-stream decoder delivers. |
| WebSocketReceive.FramesFollowReference | firmware/components/stackchan_bridge_client/web_socket.cpp:289-395 | From any message in progress, the frame parser delivers what the frame decoder delivers. |
| WebSocketReceive.ControlFramesTransparent | firmware/components/stackchan_bridge_client/web_socket.cpp:375-388 | A control frame anywhere between frames, also inside a fragmented message, yields its own event and leaves everything after it as if it had not been there. |
| WebSocketReceive.PartialWithinLimit | firmware/components/stackchan_bridge_client/web_socket.cpp:308-330 | From every settled receiver and for all bytes, a message in progress stays within the receive limit, so the remaining allowance is never negative. |
| WebSocketReceive.HeaderPrefix | firmware/components/stackchan_bridge_client/include/stackchan_bridge_client/websocket_frame_limits.h:24-93 | A header once decided does not depend on the bytes after it. |
| WebSocketServer.HeaderIff | firmware/components/stackchan_bridge_client/include/stackchan_bridge_client/websocket_frame_limits.h:24-93 | Bytes are read as a header with given flag, opcode and length exactly if they begin with what a server writes for these: shortest length in network order, no mask, control frames whole and short. |
| WebSocketServer.ServerIsHeard | firmware/components/stackchan_bridge_client/web_socket.cpp:248-395 | After an accepted response, whatever messages a server sends within the limit, in whatever fragments, with whatever control frames between them and however TCP cuts the bytes, exactly those messages are delivered, each ping is answered with its payload, and nothing fails. |
| WebSocketServer.PartsRead | firmware/components/stackchan_bridge_client/web_socket.cpp:342-394 | Whatever the client has of a message, the remaining fragments and the control frames among them yield its reactions and then the whole message. |
| WebSocketServer.MisplacedFrameFails | firmware/components/stackchan_bridge_client/web_socket.cpp:310-328 | A continuation of nothing, a new message inside another, and a payload beyond the allowance each end the connection. |
| WebSocketServer.ForeignHeaderFails | firmware/components/stackchan_bridge_client/include/stackchan_bridge_client/websocket_frame_limits.h:24-93 | Bytes long enough for a header that begin with none a server may write end the connection. |
| WebSocketClients.InspectFrameHeader | firmware/components/stackchan_bridge_client/include/stackchan_bridge_client/websocket_frame_limits.h:24-93 | The bounded inspection agrees with the header of section 5.2 of RFC 6455 and with the allowance, including the 64-bit length; an incomplete header is refused early exactly when its first two bytes already break the rules. |
| WebSocketClients.WebSocket.OnTcpData | firmware/components/stackchan_bridge_client/web_socket.cpp:248-395 | A chunk leaves the receiver, and yields the events and failure, of feeding its bytes one by one to the reference receiver. |
| WebSocketClients.WebSocket.TakeResponse | firmware/components/stackchan_bridge_client/web_socket.cpp:262-287 | The handshake part: bytes are taken until the headers end, the limit is passed or the chunk is used up. |
| WebSocketClients.WebSocket.NextFrame | firmware/components/stackchan_bridge_client/web_socket.cpp:289-394 | One turn of the frame loop makes progress and does what feeding the bytes it takes does. |
| WebSocketClients.WebSocket.GatherHeader | firmware/components/stackchan_bridge_client/web_socket.cpp:290-306 | Bytes are gathered only while the header is incomplete, without any event. |
| WebSocketClients.WebSocket.GatherFrame | firmware/components/stackchan_bridge_client/web_socket.cpp:329-340 | Payload bytes are gathered only up to the end of the frame, without any event. |
| WebSocketClients.WebSocket.CheckHeader | firmware/components/stackchan_bridge_client/web_socket.cpp:308-328 | Masked, oversized, malformed and misplaced frames fail before their payload is gathered. |
| WebSocketClients.WebSocket.Dispatch | firmware/components/stackchan_bridge_client/web_socket.cpp:342-393 | A whole frame becomes its event and the next message state. |
| WebSocketSend.MessageArrivesExactly | firmware/components/stackchan_bridge_client/web_socket.cpp:181-208 | A message sent in parts of at most 65535 bytes under any masks reaches a server that follows sections 5.3 and 5.4 of RFC 6455 as exactly that message if and only if it is text or goes out in one frame. |
| WebSocketSend.FrameRoundTrip | firmware/components/stackchan_bridge_client/web_socket.cpp:181-208 | Unframing and unmasking a sent frame, whatever follows it, gives back its flag, opcode and payload. |
| WebSocketSend.MaskedTwice | firmware/components/stackchan_bridge_client/web_socket.cpp:198-204 | Masking is its own inverse for every key and payload. |
| WebSocketSend.XorOfBits | firmware/components/stackchan_bridge_client/web_socket.cpp:202-204 | Masking is exclusive or, bit by bit. |
| WebSocketSend.FrameLayout | firmware/components/stackchan_bridge_client/web_socket.cpp:186-204 | A sent frame is laid out as section 5.2 of RFC 6455 has it: a server's header with the mask bit set, then the key, then the masked payload. |
| WebSocketSend.ContinueText | firmware/components/stackchan_bridge_client/web_socket.cpp:181-208 | Whatever a server has of a text message, the remaining parts complete it. |
| WebSocketSend.WebSocketSender.Send | firmware/components/stackchan_bridge_client/web_socket.cpp:181-208 | The bytes handed to TCP are the frame of the payload under the mask; refusals and the continuation flag are those of the source. |
| WebSocketSend.WebSocketSender.SendControlFrame | firmware/components/stackchan_bridge_client/web_socket.cpp:397-419 | A control frame of at most 125 bytes goes out masked and leaves a message in progress alone. |
| Base64.RoundTrip | firmware/components/stackchan_bridge_client/websocket_handshake.cpp:102-119 | Decoding undoes encoding for every byte string. |
| Base64.EncodeInjective | firmware/components/stackchan_bridge_client/websocket_handshake.cpp:102-119 | Distinct byte strings have distinct encodings. |
| Base64.TestVectors | firmware/components/stackchan_bridge_client/websocket_handshake.cpp:102-119 | The encoding agrees with test vectors of section 10 of RFC 4648. |
| Base64.EncodeKey | firmware/components/stackchan_bridge_client/web_socket.cpp:24-47 | The encoder that masks and shifts single bytes computes the encoding of section 4 of RFC 4648. |
| Base64.EncodeDigest | firmware/components/stackchan_bridge_client/websocket_handshake.cpp:102-119 | The encoder that packs 24 bits computes the same encoding, so both agree on every byte string. |
| Handshake.AcceptsIff | firmware/components/stackchan_bridge_client/websocket_handshake.cpp:175-233 | A response is accepted if and only if it is a good status line and non-empty header lines ended by a blank line, and these lines confirm the upgrade with exactly one, matching accept value. |
| Handshake.ReorderingIsHarmless | firmware/components/stackchan_bridge_client/websocket_handshake.cpp:195-232 | Acceptance is the same for every order of the header lines. |
| Handshake.AgreementIsAccepted | firmware/components/stackchan_bridge_client/websocket_handshake.cpp:175-233 | The ordinary response of a server that agrees is accepted, in whatever case it writes names and tokens and whatever it sends after its headers. |
| Handshake.CaseDoesNotMatter | firmware/components/stackchan_bridge_client/websocket_handshake.cpp:121-137 | Names and tokens are compared as if both were in capitals. |
| Handshake.ComposedIsJudged | firmware/components/stackchan_bridge_client/websocket_handshake.cpp:184-232 | A response made of lines is judged by those lines, whatever bytes follow the blank line. |
| Handshake.ValidateHandshakeResponse | firmware/components/stackchan_bridge_client/websocket_handshake.cpp:175-233 | The validator accepts exactly those responses, with the expected value computed from the digest of key and GUID. |
| Handshake.CheckHeaders | firmware/components/stackchan_bridge_client/websocket_handshake.cpp:201-232 | The loop over the header lines decides confirmation; a missing line end inside the head cannot happen. |
| Handshake.ContainsHeaderToken | firmware/components/stackchan_bridge_client/websocket_handshake.cpp:150-163 | The search loop finds a token exactly when a comma-separated piece is it, up to case and surrounding white space. |
| Handshake.EqualsIgnoreCase | firmware/components/stackchan_bridge_client/websocket_handshake.cpp:126-137 | Decides equality up to ASCII case. |
| Handshake.TrimHttpWhitespace | firmware/components/stackchan_bridge_client/websocket_handshake.cpp:139-148 | Removes exactly the blanks and tabs at both ends. |
| HttpChunked.ChunkedRoundTrip | firmware/components/stackchan_bridge_client/http_client.cpp:386-440 | Any list of non-empty buffers written chunk by chunk and ended comes out of the decoder as their concatenation and complete, however TCP cuts it. |
| HttpChunked.SplitsDoNotMatter | firmware/components/stackchan_bridge_client/http_client.cpp:386-440 | However any stream, well-formed or not, is cut into segments, the same body comes out and the decoder ends in the same state. |
| HttpChunked.ProcessAppend | firmware/components/stackchan_bridge_client/http_client.cpp:386-440 | Bytes that come later are worked through as if they had been there from the start. |
| HttpChunked.SizeRoundTrip | firmware/components/stackchan_bridge_client/http_client.cpp:520-542 | The size line of a chunk parses back to its size. |
| HttpBodies.CompleteIff | firmware/components/stackchan_bridge_client/http_client.cpp:386-440 | A stream is taken for complete, with a given body and leftover, if and only if it is blank lines and chunks with as much data as their size lines say, then a size line that counts as zero, trailer lines and a blank line, then the leftover. |
| HttpBodies.WellFormedDecodes | firmware/components/stackchan_bridge_client/http_client.cpp:386-440 | Every body of section 7.1 of RFC 9112, with chunk extensions and trailers, decodes to its data and is complete however TCP cuts it, and what follows it is left over. |
| HttpBodies.UnreadableSizeCompletes | firmware/components/stackchan_bridge_client/http_client.cpp:532-539 | A concrete stream whose size line is unreadable is taken for a complete empty body. |
| HttpBodies.SizeLineReads | firmware/components/stackchan_bridge_client/http_client.cpp:520-542 | A size line with blanks and an extension is read as the number its digits write. |
| HttpChunked.HttpClient.GetNextLine | firmware/components/stackchan_bridge_client/http_client.cpp:544-559 | Takes the first line with its line end and drops one carriage return before it. |
| HttpChunked.HttpClient.ReadChunkSize | firmware/components/stackchan_bridge_client/http_client.cpp:386-405 | Blank lines before a size line are skipped and the phase follows the size, as in the decoder. |
| HttpChunked.HttpClient.ReadChunkData | firmware/components/stackchan_bridge_client/http_client.cpp:407-426 | What is taken joins the body and the rest decodes as before, whether or not the line end is at hand. |
| HttpChunked.HttpClient.ReadTrailer | firmware/components/stackchan_bridge_client/http_client.cpp:428-440 | Trailer lines are skipped and a blank line completes the body. |
| HttpChunked.HttpClient.ProcessReceivedData | firmware/components/stackchan_bridge_client/http_client.cpp:386-440 | Phase, leftover and body are those of the decoder applied to all bytes at hand. |
| HttpChunked.HttpClient.OnTcpData | firmware/components/stackchan_bridge_client/http_client.cpp:262-280 | A segment is appended and worked through. |
| HttpChunked.HttpClient.Write | firmware/components/stackchan_bridge_client/http_client.cpp:649-679 | What is sent and returned: in chunked coding the chunk of a non-empty buffer and the end chunk for an empty one, otherwise the bytes themselves, and nothing without a connection. |
| Ble.FragmentedRoundTrip | firmware/main/hal/hal_ble.cpp:34-181 | From any assembler state, the packets of any message in order yield nothing until the last and then exactly the message; every packet fits the payload size. |
| Ble.AssemblesExactlyWholeRuns | firmware/main/hal/hal_ble.cpp:98-181 | Over every history of frames a fragment completes a message if and only if the most recent frames are fragments 0..n-1 with one header total and exactly the declared length, and the message is their concatenation. |
| Ble.ReceivedIff | firmware/main/hal/hal_ble.cpp:34-181 | After every history of frames, the frames sent for a message make the receiver yield it if and only if it is long enough to be fragmented, does not look like a fragment, or happens to be the last fragment of itself. |
| Ble.UnfragmentedDelivery | firmware/main/hal/hal_ble.cpp:98-181 | After every history, a message in one frame is handed on unchanged if and only if it does not look like a fragment or happens to complete itself. |
| Ble.LooksLikeFragment | firmware/main/hal/hal_ble.cpp:42-49 | A concrete message that is sent in one frame and dropped by an idle receiver, yet received after one particular frame. |
| Ble.RunAssembles | firmware/main/hal/hal_ble.cpp:98-181 | From any state a whole run yields its message on the last fragment and nothing before. |
| Ble.SentPacketsAreRun | firmware/main/hal/hal_ble.cpp:56-94 | The packets of a message are one run that carries it, each within the payload size. |
| Ble.PayloadUsable | firmware/main/hal/hal_ble.cpp:27-32 | Over every history of writes the payload size stays large enough to fragment and is the longest admissible write seen. |
| Ble.SendFragmentedNotify | firmware/main/hal/hal_ble.cpp:34-94 | Which frames go out for every length, limit and payload size, up to and including the first that fails. |
| Ble.SendFragments | firmware/main/hal/hal_ble.cpp:67-93 | The packets sent are the first fragments of the message in order, up to the failing one. |
| Ble.BuildPacket | firmware/main/hal/hal_ble.cpp:68-85 | A packet is the header of its index, total and length and its piece of the message. |
| Ble.PieceStart | firmware/main/hal/hal_ble.cpp:68-69 | The 16-bit product never wraps and is where the piece starts. |
| Ble.PacketCount | firmware/main/hal/hal_ble.cpp:56-62 | The 16-bit quotient never wraps and is the number of pieces. |
| Ble.BleFragmentAssembler.ConsumeFrame | firmware/main/hal/hal_ble.cpp:98-181 | One frame moves the assembler and yields what the assembly step says; the empty-payload branch cannot be reached. |
| Ble.BleFragmentAssembler.TakeBody | firmware/main/hal/hal_ble.cpp:149-180 | Overflow, short and incomplete messages reset; a complete one comes out whole; the 16-bit index never wraps. |
| Ble.BleFragmentAssembler.Start | firmware/main/hal/hal_ble.cpp:195-203 | Assembly begins empty with the declared length and count. |
| Ble.BleFragmentAssembler.Reset | firmware/main/hal/hal_ble.cpp:205-212 | Nothing is being assembled. |
| BoundedText.IsValidBoundedText | firmware/components/stackchan_bridge_client/command.cpp:79-132 | Accepts a byte string if and only if it is the UTF-8 encoding (section 4 of RFC 3629) of 1 to N scalar values, none below U+0020 and none U+007F. |
| BoundedText.CheckSequence | firmware/components/stackchan_bridge_client/command.cpp:87-123 | Accepts exactly the well-formed printable sequence at an index and gives its length. |
| BoundedText.DecodeIff | firmware/components/stackchan_bridge_client/command.cpp:79-132 | A byte string decodes to scalar values exactly when it is their encoding. |
| BoundedText.EncodingDecodes | firmware/components/stackchan_bridge_client/command.cpp:88-127 | Every encoded scalar value decodes to itself, whatever follows. |
| BoundedText.DecodedIsEncoding | firmware/components/stackchan_bridge_client/command.cpp:88-127 | What decodes to a scalar value is its shortest encoding, so no overlong form, surrogate or value above U+10FFFF is accepted. |
| BoundedText.BoundedTextIff | firmware/components/stackchan_bridge_client/command.cpp:79-132 | Bounded text is what decodes within the limit. |
| Vad.UtterancesAreWindows | bridge/src/stackchan_bridge/audio/vad.py:92-161 | Every utterance of every run is a contiguous window of the input ending at the current frame, holds the whole loud run that started it, and has at most max(preroll + start + 1, ceil(maximum / frame)) frames. |
| Vad.LevelsKeepHysteresis | bridge/src/stackchan_bridge/audio/vad.py:95-103 | With the ratios the settings demand, in every run the noise floor stays non-negative and the end level strictly below the start level. |
| Vad.HysteresisExactly | bridge/src/stackchan_bridge/audio/vad.py:92-165 | With all fields in the ranges of the settings, the end level stays below the start level in every run if and only if the end ratio is below the start ratio, or is at most one with an initial noise that does not lift the end level to the start threshold. |
| Vad.LevelsCanCross | bridge/src/stackchan_bridge/config.py:133-139 | At concrete settings with ratios in the wrong order, which the settings object refuses and the detector accepts, one frame makes the levels cross. |
| Vad.OrderLost | bridge/src/stackchan_bridge/audio/vad.py:95-118 | For every configuration outside that condition there is a run of quiet frames after which the levels have crossed. |
| Vad.BeginsExactly | bridge/src/stackchan_bridge/audio/vad.py:105-118 | In every run, a recording begins with a frame exactly if it is loud and completes a long enough run of loud frames, and takes over the frames kept. |
| Vad.EndsExactly | bridge/src/stackchan_bridge/audio/vad.py:120-131 | In every run, a recording ends with a frame exactly if it then has the longest duration or has been quiet at its end for long enough; acceptance and reason follow from the loud frames counted. |
| Vad.StreamEndEndsRecording | bridge/src/stackchan_bridge/audio/vad.py:133-140 | In every run, the end of the stream ends exactly a recording in progress. |
| Vad.PrerollIsKept | bridge/src/stackchan_bridge/audio/vad.py:105-117 | In every run, the newest frames, as many as preroll and start need, are kept for the next recording, and an utterance leaves its own newest to the one after. |
| Vad.RunSound | bridge/src/stackchan_bridge/audio/vad.py:72-165 | The invariant tying preroll, recording and onset to the input holds after every sequence of frames and stream ends. |
| Vad.RmsVad.ProcessFrame | bridge/src/stackchan_bridge/audio/vad.py:92-131 | The new state and utterance are those of the detector step; a frame of the wrong size is refused and changes nothing. |
| Vad.RmsVad.ListenTo | bridge/src/stackchan_bridge/audio/vad.py:105-118 | While idle: preroll, loud run and noise floor move on and recording starts when the run is long enough. |
| Vad.RmsVad.FinishStream | bridge/src/stackchan_bridge/audio/vad.py:133-140 | An ended stream completes a recording and otherwise forgets preroll and run. |
| Vad.RmsVad.CompleteUtterance | bridge/src/stackchan_bridge/audio/vad.py:142-161 | The whole recording comes out and its last frames become the next preroll. |
| RateLimits.WindowBound | bridge/src/stackchan_bridge/security/rate_limits.py:42-59 | In every run on a monotone clock and every window of it, a key is granted at most capacity plus rate times the length of the window. |
| RateLimits.RetryIsServed | bridge/src/stackchan_bridge/security/rate_limits.py:42-59 | After a refusal, waiting the advised seconds without another request of that key guarantees the next is allowed, whatever other keys do. |
| RateLimits.NewKeyIsServed | bridge/src/stackchan_bridge/security/rate_limits.py:42-57 | In every run, a key never seen is granted as many requests as the capacity, whenever they come and whatever other keys do. |
| RateLimits.AdviceIsShortest | bridge/src/stackchan_bridge/security/rate_limits.py:58-59 | The advised wait is the shortest in whole seconds: a second earlier the key is refused. |
| RateLimits.GrantsArePaid | bridge/src/stackchan_bridge/security/rate_limits.py:48-57 | From any sane buckets, grants in a window are at most the level at its start plus the refill over it. |
| RateLimits.TokenBucketRateLimiter.AcquireToken | bridge/src/stackchan_bridge/security/rate_limits.py:42-59 | One request moves the bucket of its key only, and decides as the bucket step does. |
| HeadTouch.GesturesWellFormed | firmware/main/hal/hal_head_touch.cpp:64-110 | Over every sample sequence the gestures are presses, each followed by at most one swipe and then a release; the recogniser is idle iff the debouncer is untouched. |
| HeadTouch.GesturesAreEarned | firmware/main/hal/head_touch_debouncer.h:25-58 | Every press follows the configured number of touched samples in a row, and before that run, since the last release, the configured number of idle samples in a row; every release follows that number of idle samples. |
| HeadTouch.GesturesExactly | firmware/main/hal/hal_head_touch.cpp:64-110 | Over every sample sequence, exactly when the next sample is a press, a release, or a swipe forward or backward, in terms of the samples in a row, the rest since the last release, and the distance from the position of the press. |
| HeadTouch.SettleSound | firmware/main/hal/head_touch_debouncer.h:25-58 | The debouncer's counters are what the sample history says, after every sample. |
| HeadTouch.PositionRoundsTowardZero | firmware/main/hal/hal_head_touch.cpp:33-40 | The position is the weighted mean of -100, 0 and 100, rounded toward zero. |
| HeadTouch.Position | firmware/main/hal/hal_head_touch.cpp:33-40 | The position lies between -100 and 100 for every reading, so differences fit 16 bits. |
| HeadTouch.HeadTouchDebouncer.Update | firmware/main/hal/head_touch_debouncer.h:25-58 | One sample moves the debouncer as the settling step says; its 8-bit counters never wrap. |
| HeadTouch.GestureRecognizer.Update | firmware/main/hal/hal_head_touch.cpp:64-110 | One reading moves the recogniser and emits what the recognition step says. |
| Wrappers.ElapsedIsLowerBound | firmware/components/stackchan_bridge_client/session.cpp:491-493 | The wrapping difference of two clock readings is the true difference modulo 2^32 and never exceeds it. |

## Left out

- JSON parsing and printing: messages are datatypes; what a text parses to and whether a message could be built are inputs; only the size bound of a command result is kept.
- SHA-1: the handshake validator takes the digest as a parameter, and the receiver takes acceptance of the response as one.
- Sockets, TLS, name resolution, threads, mutexes and FreeRTOS tasks: only their outcomes and interleavings appear.
- Calls to the outside that do not change the client (transport close and ping, playback flush, state-changed notices): not recorded among a session's effects.
- Storage of a cached result: the charge of an entry is stored with the entry so that the sum can be stated; the source keeps only the total.
- Counters of dropped packets, underflows and generations: unbounded numbers; the source's 64-bit wrap-around is not modelled.
- BridgeClients.BridgeClient.SendPending: treats the two locked regions as one step; the interleaved form is BufferEvents.
- Transport: a step relation over the shared fields rather than a class, because its threads interleave inside methods; the worker's handling of the socket pointer is reduced to when a worker runs and that it may enqueue.
- Receivers after their first failure: the rest of a TCP chunk is dropped or kept by the source, and nothing is claimed about it.
- HttpChunked.HttpClient.OnTcpData: does not wait while too much of the body is unread; the body is one byte sequence without a limit.
- BridgeClients.BridgeClient.Begin: whether the configuration is good is an input; the checks of token, URL and limits are not modelled.
- HTTP status lines, headers, interim responses, fixed-length bodies, and blocking reads: only the chunked coding is modelled.
- Vad.RmsVad.ProcessFrame: the root mean square of a frame is an input, at least zero; the exception for a frame of the wrong size is a returned flag.
- Vad.HysteresisExactly: loudness ranges over the real numbers, so the run it exhibits may need a loudness that 16-bit samples only approximate.
- Vad.LevelsKeepHysteresis: arithmetic is over real numbers, without floating-point rounding; likewise in RateLimits.
- RateLimits.TokenBucketRateLimiter.AcquireToken: the clock reading is a parameter, and a policy the constructor refuses has no object.
- Ble.BleFragmentAssembler.ConsumeFrame: a null data pointer, which the source treats as not a fragment, has no counterpart; frames have at most 65535 bytes, as their length type says.
- Camera, servo, provisioning, discovery, speech segmentation, the bridge's turn coordinator and gateway, simulator scenarios and release scripts: not part of this model.
