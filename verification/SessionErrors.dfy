/** Bad messages and repeated messages: every bad one is reported and counted, the third within ten
    seconds ends the connection, and a message that comes again takes effect once. */
module SessionErrors {
  import opened Wrappers
  import opened DeviceStates
  import opened Session
  import opened SessionRuns
  import opened SessionProgress
  import opened SessionStreams
  import Audio = AudioOutput

  // ----- Bad messages ---------------------------------------------------------------------------

  /** A payload that no parser takes: nothing at all, a text that is refused by all of them, or a
      packet that is no packet or has no open stream to go to. */
  predicate Bad(s: State, payload: Payload) {
    match payload
    case NullData(_) => true
    case TextData(text) => !text.cameraAck && !text.audio.Parsed? && !text.remote.Parsed? && !text.command.Parsed?
    case Binary(packet) => !s.output.open || packet == [] || |packet| > 1275
  }

  function Heard(cfg: Config, r: Run, payload: Payload, io: DataIo): Run {
    Step(cfg, r, Polled(Data(payload, io)))
  }

  /** In every online state a bad message is reported and counted; the connection is given up exactly
      if the report could not be sent, the count is full, or it was given up before. */
  lemma BadMessageIsReported(cfg: Config, r: Run, payload: Payload, io: DataIo)
    requires Online(r.s.device) && Bad(r.s, payload)
    ensures var t := Heard(cfg, r, payload, io);
      var (window, terminal) := Observe(r.s.window, r.s.lastUpdateMs);
      var sent := r.s.helloAck.Some? && cfg.hasEnvelope && io.peer.Sent?;
      && t.s.window == window && (t.s.link.pending <==> r.s.link.pending || !sent || terminal)
      && t.s.device == r.s.device && t.s.helloAck == r.s.helloAck && t.s.lastUpdateMs == r.s.lastUpdateMs
      && t.trace == r.trace && t.clock == r.clock && t.s.output.open == r.s.output.open
  {
    hide Observe;
    assert r.trace + [] == r.trace;
  }

  /** The error window over true time: an error more than ten seconds after the window opened opens a
      new one; within ten seconds the third one is terminal and the second is not. */
  lemma WindowInTrueTime(begun: nat, now: nat, count: nat)
    requires begun <= now < begun + TICKS && 0 < count <= 3
    ensures Observe(Window(begun % TICKS, count), now % TICKS) ==
      if now - begun >= 10000 then (Window(now % TICKS, 1), false)
      else if count == 1 then (Window(begun % TICKS, 2), false)
      else (Window(begun % TICKS, 3), true)
  {
    ElapsedIsLowerBound(begun, now);
    hide Elapsed;
  }

  function Passing(cfg: Config, r: Run, advance: nat): Run {
    Step(cfg, r, Clock(advance))
  }

  /** Whatever else is sound about a connection, its third bad message within ten seconds of true time
      ends it although every report is sent, and with more time in between it does not. */
  lemma ThreeBadMessages(cfg: Config, r: Run, first: Payload, a: nat, second: Payload, b: nat, third: Payload, io: DataIo)
    requires Online(r.s.device) && r.s.helloAck.Some? && cfg.hasEnvelope && io.peer == Sent
    requires r.s.window.count == 0 && !r.s.link.pending && r.s.lastUpdateMs == r.clock % TICKS
    requires Bad(r.s, first) && Bad(r.s, second) && Bad(r.s, third) && a < 10000 && a + b < TICKS
    ensures var r1 := Heard(cfg, r, first, io);
      var r2 := Heard(cfg, Passing(cfg, r1, a), second, io);
      var r3 := Heard(cfg, Passing(cfg, r2, b), third, io);
      && !r1.s.link.pending && !r2.s.link.pending
      && (r3.s.link.pending <==> a + b < 10000)
  {
    var r1 := Heard(cfg, r, first, io);
    BadMessageIsReported(cfg, r, first, io);
    assert r1.s.window == Window(r.clock % TICKS, 1);
    var p1 := Passing(cfg, r1, a);
    TimePasses(cfg, r1, a);
    hide Passing, Heard;
    BadMessageIsReported(cfg, p1, second, io);
    WindowInTrueTime(r.clock, r.clock + a, 1);
    var r2 := Heard(cfg, p1, second, io);
    var p2 := Passing(cfg, r2, b);
    TimePasses(cfg, r2, b);
    BadMessageIsReported(cfg, p2, third, io);
    WindowInTrueTime(r.clock, r.clock + a + b, 2);
    hide Observe;
  }

  lemma TimePasses(cfg: Config, r: Run, advance: nat)
    ensures var p := Passing(cfg, r, advance);
      && p.clock == r.clock + advance && p.s == r.s.(lastUpdateMs := p.clock % TICKS)
  {
  }

  /** A disconnect forgets the errors, so every connection starts with an empty count. */
  lemma DisconnectForgetsErrors(cfg: Config, r: Run, loss: Callback)
    requires loss.Disconnected? || loss.TransportError?
    ensures Step(cfg, r, Polled(loss)).s.window.count == 0
  {
  }

  // ----- Repeated messages ----------------------------------------------------------------------

  /** What is remembered is the new id and, but for the oldest once 256 are held, the others. */
  lemma MemoryHolds(seen: seq<string>, id: string)
    requires |seen| <= SEEN_LIMIT
    ensures var after := Remembered(seen, id);
      && id in after && |after| <= SEEN_LIMIT
      && (id in seen ==> after == seen)
      && (id !in seen && |seen| < 256 ==> after == seen + [id])
      && (id !in seen && |seen| == 256 ==> after == seen[1..] + [id])
  {
    assert id !in seen ==> Remembered(seen, id)[|Remembered(seen, id)| - 1] == id;
  }

  /** In every run, an audio control message that follows another one of the same id, whatever it says,
      changes nothing. */
  lemma ControlCountsOnce(cfg: Config, prerollMs: int, clock: nat, events: seq<Event>, text: Text, control: AudioControl,
                          io: DataIo, again: Text, repeated: AudioControl, more: DataIo)
    requires Online(RunOf(cfg, prerollMs, clock, events).s.device)
    requires IsControl(text, control) && IsControl(again, repeated) && repeated.messageId == control.messageId
    ensures var told := Told(cfg, RunOf(cfg, prerollMs, clock, events), text, io);
      Told(cfg, told, again, more) == told
  {
    var r := RunOf(cfg, prerollMs, clock, events);
    BootSound(prerollMs, clock);
    RunSound(cfg, Start(prerollMs, clock), events);
    hide RunOf, Told;
    ToldControl(cfg, r, text, control, io);
    AudioControlHarmless(cfg, r.s, control, io);
    ControlIsRemembered(cfg, r.s, control, io);
    ToldControl(cfg, Told(cfg, r, text, io), again, repeated, more);
    hide Harmless, Inv;
  }

  lemma ControlIsRemembered(cfg: Config, s: State, control: AudioControl, io: DataIo)
    requires |s.replay.seen| <= SEEN_LIMIT
    ensures control.messageId in HandleAudioControl(cfg, s, control, io).replay.seen
    ensures forall io', control': AudioControl :: control'.messageId == control.messageId ==>
      HandleAudioControl(cfg, HandleAudioControl(cfg, s, control, io), control', io') == HandleAudioControl(cfg, s, control, io)
  {
    MemoryHolds(s.replay.seen, control.messageId);
    var s1 := Remember(s, control.messageId);
    if control.messageId !in s.replay.seen {
      if control.StartOutput? {
        StartLeavesMemory(cfg, s1, control.stream, io);
      } else {
        EndLeavesMemory(cfg, s1, control.turnId, control.streamId, control.reason, io.peer);
      }
    }
    hide Remembered, HandleOutputStart, HandleOutputEnd;
  }

  lemma StartLeavesMemory(cfg: Config, s: State, stream: Audio.Stream, io: DataIo)
    ensures HandleOutputStart(cfg, s, stream, io).replay == s.replay
  {
  }

  lemma EndLeavesMemory(cfg: Config, s: State, turnId: string, streamId: string, reason: Audio.EndReason, peer: Attempt)
    ensures HandleOutputEnd(cfg, s, turnId, streamId, reason, peer).replay == s.replay
  {
  }

  /** In every run, a command whose message id was seen and whose request id is not cached changes
      nothing. */
  lemma SeenCommandIsIgnored(cfg: Config, prerollMs: int, clock: nat, events: seq<Event>, text: Text, io: DataIo)
    requires IsCommand(text) && cfg.hasHandler && cfg.hasEnvelope
    requires var s := RunOf(cfg, prerollMs, clock, events).s; var c := text.command.value;
      && Online(s.device) && c.messageId in s.replay.seen
      && forall k :: 0 <= k < |s.replay.cache| ==> s.replay.cache[k].command.requestId != c.requestId
    ensures var r := RunOf(cfg, prerollMs, clock, events); Told(cfg, r, text, io) == r
  {
    var r := RunOf(cfg, prerollMs, clock, events);
    ToldCommand(cfg, r, text, io);
    assert r.trace + [] == r.trace;
    hide RunOf, Told;
  }

  // ----- Refused stream messages ----------------------------------------------------------------

  /** In every run, a new start message for a buffer that does not take its stream, and a new end
      message for a stream that is not being received, are reported as peer errors. */
  lemma RefusedControlIsReported(cfg: Config, prerollMs: int, clock: nat, events: seq<Event>, text: Text,
                                 control: AudioControl, io: DataIo)
    requires IsControl(text, control)
    requires var s := RunOf(cfg, prerollMs, clock, events).s;
      && Online(s.device) && control.messageId !in s.replay.seen && !s.input.open
      && match control
         case StartOutput(_, stream) => Audio.Start(s.output, stream).1 != Audio.Ok
         case EndOutput(_, turnId, streamId, reason) =>
           && !(turnId == s.cancels.localTurn && streamId == s.cancels.localStream)
           && !(s.output.open && turnId == s.output.stream.turnId && streamId == s.output.stream.streamId)
    ensures var r := RunOf(cfg, prerollMs, clock, events);
      Told(cfg, r, text, io) == r.(s := ReportPeerError(cfg, Remember(r.s, control.messageId), io.peer))
  {
    var r := RunOf(cfg, prerollMs, clock, events);
    ToldControl(cfg, r, text, control, io);
    hide RunOf, Told, ReportPeerError, Remembered, Audio.ValidStream;
  }
}
