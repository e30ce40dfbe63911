/** What the session does with audio: inputs open and close, playback starts, is interrupted, is
    cancelled and ends, each in every reachable state that allows it. */
module SessionStreams {
  import opened Wrappers
  import opened DeviceStates
  import opened Session
  import opened SessionRuns
  import opened SessionProgress
  import Audio = AudioOutput

  predicate IsControl(text: Text, control: AudioControl) {
    !text.cameraAck && text.audio == Parsed(control)
  }

  lemma ToldControl(cfg: Config, r: Run, text: Text, control: AudioControl, io: DataIo)
    requires Online(r.s.device) && IsControl(text, control)
    ensures Told(cfg, r, text, io) == r.(s := HandleAudioControl(cfg, r.s, control, io))
  {
    hide HandleAudioControl;
    assert r.trace + [] == r.trace;
  }

  // ----- Input ----------------------------------------------------------------------------------

  /** In every run, an idle session opens an input whose start can be sent; a speaking one does so as
      well and drops the playback, whose stream it remembers as cancelled by itself. */
  lemma InputOpens(cfg: Config, prerollMs: int, clock: nat, events: seq<Event>, turnId: string, streamId: string)
    requires cfg.hasEnvelope
    requires RunOf(cfg, prerollMs, clock, events).s.device in {Idle, Speaking}
    ensures var r := RunOf(cfg, prerollMs, clock, events);
      var t := Step(cfg, r, InputBegun(turnId, streamId, Sent)).s;
      && t.device == Listening && t.input == Input(turnId, streamId, true, Timer(true, false, r.s.input.timer.startedAt))
      && !t.output.active
      && (r.s.device == Speaking ==>
            t.cancels == Cancels(r.s.output.stream.turnId, r.s.output.stream.turnId, r.s.output.stream.streamId))
  {
    AgreementAlways(cfg, prerollMs, clock, events);
    hide RunOf;
  }

  /** In every run, an input that cannot be started stays closed: nothing changes if its start cannot be
      built; if it cannot be sent, the connection is given up, and a playback has been dropped for it. */
  lemma FailedInputStaysClosed(cfg: Config, prerollMs: int, clock: nat, events: seq<Event>, turnId: string, streamId: string)
    requires cfg.hasEnvelope
    requires RunOf(cfg, prerollMs, clock, events).s.device in {Idle, Speaking}
    ensures var r := RunOf(cfg, prerollMs, clock, events);
      var t := Step(cfg, r, InputBegun(turnId, streamId, SendFailed)).s;
      && Step(cfg, r, InputBegun(turnId, streamId, BuildFailed)) == r
      && t.link.pending && !t.input.open && !t.output.active
      && t.device == if r.s.device == Speaking then Listening else Idle
  {
    AgreementAlways(cfg, prerollMs, clock, events);
    hide RunOf;
  }

  /** In every run, an input packet, a touch and a camera report change nothing, except that one that
      may be sent and then is not leaves a reconnect pending. */
  lemma FailedSendsAreNoticed(cfg: Config, prerollMs: int, clock: nat, events: seq<Event>, size: nat, sent: bool, attempt: Attempt)
    ensures var r := RunOf(cfg, prerollMs, clock, events);
      var packet := r.s.input.open && 0 < size <= 1275 && !sent;
      var event := Online(r.s.device) && cfg.hasEnvelope && attempt == SendFailed;
      && Step(cfg, r, InputPacketSent(size, sent)) == Lost(r, packet)
      && Step(cfg, r, TouchSent(attempt)) == Lost(r, event && cfg.touch)
      && Step(cfg, r, CameraSent(attempt)) == Lost(r, event)
  {
    AgreementAlways(cfg, prerollMs, clock, events);
    hide RunOf;
  }

  function Lost(r: Run, lost: bool): Run {
    r.(s := r.s.(link := r.s.link.(pending := r.s.link.pending || lost)))
  }

  /** In every run, a remote decode error ends the input it names, and no other. */
  lemma RemoteErrorEndsInput(cfg: Config, prerollMs: int, clock: nat, events: seq<Event>, text: Text, io: DataIo)
    requires !text.cameraAck && !text.audio.Parsed? && text.remote.Parsed?
    requires var s := RunOf(cfg, prerollMs, clock, events).s;
      Online(s.device) && text.remote.value.messageId !in s.replay.seen
    ensures var r := RunOf(cfg, prerollMs, clock, events); var e := text.remote.value;
      var t := Told(cfg, r, text, io).s;
      if r.s.input.open && e.audioDecode && e.turnId == r.s.input.turnId && e.streamId == r.s.input.streamId
      then t.device == Idle && !t.input.open && !t.input.timer.armed
      else t.device == r.s.device && t.input == r.s.input
  {
    AgreementAlways(cfg, prerollMs, clock, events);
    hide RunOf, Remembered;
  }

  // ----- Playback -------------------------------------------------------------------------------

  /** In every run, a new start message makes the session speak if the buffer is free and takes the
      stream, and an open input can be ended first. */
  lemma PlaybackStarts(cfg: Config, prerollMs: int, clock: nat, events: seq<Event>, text: Text, id: string,
                       stream: Audio.Stream, io: DataIo)
    requires IsControl(text, StartOutput(id, stream))
    requires var s := RunOf(cfg, prerollMs, clock, events).s;
      && Online(s.device) && id !in s.replay.seen && Audio.Start(s.output, stream).1 == Audio.Ok
      && (s.input.open ==> cfg.hasEnvelope && io.endInput == Sent)
    ensures var t := Told(cfg, RunOf(cfg, prerollMs, clock, events), text, io).s;
      && t.device == Speaking && !t.input.open
      && t.output.active && t.output.open && t.output.stream == stream && t.output.queue == []
      && t.cancels.recentTurn == ""
  {
    AgreementAlways(cfg, prerollMs, clock, events);
    var r := RunOf(cfg, prerollMs, clock, events);
    ToldControl(cfg, r, text, StartOutput(id, stream), io);
    var s := Remember(r.s, id);
    StartSpeaks(cfg, s, stream, io);
    hide RunOf, Told, HandleOutputStart, Remembered;
  }

  lemma StartSpeaks(cfg: Config, s: State, stream: Audio.Stream, io: DataIo)
    requires Agreement(s) && Online(s.device) && Audio.Start(s.output, stream).1 == Audio.Ok
    requires s.input.open ==> cfg.hasEnvelope && io.endInput == Sent
    ensures var t := HandleOutputStart(cfg, s, stream, io);
      && t.device == Speaking && !t.input.open
      && t.output.active && t.output.open && t.output.stream == stream && t.output.queue == []
      && t.cancels.recentTurn == ""
  {
    hide Audio.ValidStream;
  }

  /** In every run, a message that ends the stream being received lets playback finish if it was
      completed, and otherwise drops it at once. */
  lemma OutputEnds(cfg: Config, prerollMs: int, clock: nat, events: seq<Event>, text: Text, id: string,
                   reason: Audio.EndReason, io: DataIo)
    requires var s := RunOf(cfg, prerollMs, clock, events).s;
      && Online(s.device) && id !in s.replay.seen && s.output.open
      && !(s.output.stream.turnId == s.cancels.localTurn && s.output.stream.streamId == s.cancels.localStream)
      && IsControl(text, EndOutput(id, s.output.stream.turnId, s.output.stream.streamId, reason))
    ensures var r := RunOf(cfg, prerollMs, clock, events);
      var t := Told(cfg, r, text, io).s;
      if reason == Audio.Completed
      then t.device == Speaking && t.output == r.s.output.(open := false, ended := true)
      else t.device == Idle && !t.output.active && t.output.queue == []
           && t.cancels.recentTurn == if reason == Audio.Cancelled then r.s.output.stream.turnId else r.s.cancels.recentTurn
  {
    AgreementAlways(cfg, prerollMs, clock, events);
    var r := RunOf(cfg, prerollMs, clock, events);
    var stream := r.s.output.stream;
    ToldControl(cfg, r, text, EndOutput(id, stream.turnId, stream.streamId, reason), io);
    hide RunOf, Told, Remembered;
  }

  /** In every run, the late end of a stream that the session itself cancelled changes nothing but the
      message ids seen. */
  lemma LateEndIsIgnored(cfg: Config, prerollMs: int, clock: nat, events: seq<Event>, text: Text, id: string,
                         reason: Audio.EndReason, io: DataIo)
    requires var s := RunOf(cfg, prerollMs, clock, events).s;
      && Online(s.device) && id !in s.replay.seen
      && IsControl(text, EndOutput(id, s.cancels.localTurn, s.cancels.localStream, reason))
    ensures var r := RunOf(cfg, prerollMs, clock, events);
      Told(cfg, r, text, io) == r.(s := Remember(r.s, id))
  {
    var r := RunOf(cfg, prerollMs, clock, events);
    ToldControl(cfg, r, text, EndOutput(id, r.s.cancels.localTurn, r.s.cancels.localStream, reason), io);
    hide RunOf, Told, Remembered;
  }

  /** In every run, a packet that arrives while speaking joins the queue exactly if the buffer accepts
      it, and then nothing else changes. */
  lemma PacketArrives(cfg: Config, prerollMs: int, clock: nat, events: seq<Event>, packet: Audio.Packet, io: DataIo)
    requires var s := RunOf(cfg, prerollMs, clock, events).s;
      Online(s.device) && Audio.Push(s.output, packet).1 == Audio.Ok
    ensures var r := RunOf(cfg, prerollMs, clock, events);
      var t := Step(cfg, r, Polled(Data(Binary(packet), io)));
      && t == r.(s := r.s.(output := t.s.output)) && t.s.output.queue == r.s.output.queue + [packet]
  {
    var r := RunOf(cfg, prerollMs, clock, events);
    assert r.trace + [] == r.trace;
    hide RunOf;
  }

  /** In every run, an offer to a willing consumer hands out the oldest waiting packet if there is one and
      the stream has ended or met its preroll. It counts an underflow, and notes it for the report,
      exactly if nothing waits, the device below has run dry, the stream is still being received after
      its preroll, and no underflow was counted since the last packet. */
  lemma OfferDelivers(cfg: Config, prerollMs: int, clock: nat, events: seq<Event>, idle: bool)
    ensures var r := RunOf(cfg, prerollMs, clock, events); var b := r.s.output;
      var (t, packet) := DeliverOutput(r.s, idle, true);
      var ready := b.active && b.queue != [] && (b.ended || b.prerollMet);
      var dry := b.active && b.queue == [] && idle && b.open && b.prerollMet && !b.underflowing;
      && Step(cfg, r, OutputOffered(idle, true)) == r.(s := t)
      && (if ready then packet == Some(b.queue[0]) && t.output.queue == b.queue[1..]
          else packet == None && t.output.queue == b.queue)
      && t.output.underflows == b.underflows + (if dry then 1 else 0)
      && (dry && b.stream.streamId != "" ==> t.troubles.underrun.streamId == b.stream.streamId
                                             && 0 < t.troubles.underrun.packets)
      && (!dry ==> t.troubles == r.s.troubles)
  {
    AgreementAlways(cfg, prerollMs, clock, events);
    hide RunOf;
  }

  /** In every run, playback that can be acknowledged ends with the acknowledgement, and with nothing
      less. */
  lemma AcknowledgementEndsPlayback(cfg: Config, prerollMs: int, clock: nat, events: seq<Event>)
    ensures var r := RunOf(cfg, prerollMs, clock, events);
      var t := Step(cfg, r, OutputAcknowledged).s;
      if r.s.output.active && r.s.output.ended && r.s.output.queue == []
      then t.device == Idle && !t.output.active
      else t == r.s
  {
    AgreementAlways(cfg, prerollMs, clock, events);
    hide RunOf;
  }

  /** In every run, a decode failure while speaking drops the playback. */
  lemma DecodeFailureEndsPlayback(cfg: Config, prerollMs: int, clock: nat, events: seq<Event>, attempt: Attempt)
    requires RunOf(cfg, prerollMs, clock, events).s.device == Speaking
    ensures var t := Step(cfg, RunOf(cfg, prerollMs, clock, events), DecodeFailed(attempt)).s;
      t.device == Idle && !t.output.active && t.troubles == NO_TROUBLES
  {
    AgreementAlways(cfg, prerollMs, clock, events);
    hide RunOf;
  }

  /** In every run, a speech cancellation for the turn that is playing ends the playback, whatever
      becomes of its result. */
  lemma CancelEndsPlayback(cfg: Config, prerollMs: int, clock: nat, events: seq<Event>, text: Text, io: DataIo)
    requires IsCommand(text) && cfg.hasHandler && cfg.hasEnvelope && text.command.value.name == SpeechCancel
    requires var s := RunOf(cfg, prerollMs, clock, events).s; var c := text.command.value;
      && s.device == Speaking && s.output.stream.turnId == c.turnId
      && Classify(cfg, s, text.size, c) == New
    ensures var t := Told(cfg, RunOf(cfg, prerollMs, clock, events), text, io).s;
      t.device == Idle && !t.output.active && t.output.queue == []
  {
    AgreementAlways(cfg, prerollMs, clock, events);
    var r := RunOf(cfg, prerollMs, clock, events);
    ToldCommand(cfg, r, text, io);
    hide RunOf, Told, Classify, Remembered, Keep;
  }
}
