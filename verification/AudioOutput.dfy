/** The playback queue of one audio output stream, and what holds over every run of it. */
module AudioOutput {
  import opened Wrappers

  const QUEUE_PACKETS: nat := 32
  const MAX_PACKET_BYTES: nat := 1275

  type Packet = seq<byte>

  datatype Stream = Stream(turnId: string, streamId: string, codec: string, sampleRate: int,
                           channels: int, frameMs: int, expectedDurationMs: int)

  const NO_STREAM: Stream := Stream("", "", "", 0, 0, 0, 0)

  datatype EndReason = Completed | Cancelled | BargeIn | TtsError | DeviceError | Disconnect

  datatype Status = Ok | InvalidArgument | InvalidState | PacketTooLarge | QueueOverflow | WrongStream

  datatype Consumer = Absent | Declines | Accepts

  predicate AllowedFrameDuration(frameMs: int) {
    frameMs == 20 || frameMs == 40 || frameMs == 60
  }

  predicate ValidStream(stream: Stream) {
    && stream.turnId != "" && stream.streamId != "" && stream.codec == "opus"
    && stream.sampleRate == 16000 && stream.channels == 1
    && AllowedFrameDuration(stream.frameMs) && 0 <= stream.expectedDurationMs <= 120000
  }

  /** The buffer's fields as one value. */
  datatype Buffer = Buffer(prerollMs: int, stream: Stream, queue: seq<Packet>, dropped: nat,
                           underflows: nat, active: bool, open: bool, ended: bool,
                           prerollMet: bool, underflowing: bool)
  {
    predicate ReadyForPlayback() {
      active && queue != [] && (ended || prerollMet)
    }

    predicate DeliveryComplete() {
      active && ended && queue == []
    }

    /** Playback has drained a stream that is still being received. */
    predicate Starved() {
      active && open && prerollMet && queue == []
    }
  }

  function Fresh(prerollMs: int): Buffer {
    Buffer(prerollMs, NO_STREAM, [], 0, 0, false, false, false, false, false)
  }

  function Clear(b: Buffer): Buffer {
    b.(queue := [], stream := NO_STREAM, active := false, open := false, ended := false,
       prerollMet := false, underflowing := false)
  }

  function Start(b: Buffer, stream: Stream): (Buffer, Status) {
    if !ValidStream(stream) || b.prerollMs < 0 || b.prerollMs > QUEUE_PACKETS * stream.frameMs then
      (b, InvalidArgument)
    else if b.active then (b, InvalidState)
    else (b.(stream := stream, queue := [], active := true, open := true, ended := false,
             prerollMet := false, underflowing := false), Ok)
  }

  /** A missing packet is the empty one: the buffer refuses both alike. */
  function PushStatus(b: Buffer, p: Packet): Status {
    if !b.open then InvalidState
    else if p == [] then InvalidArgument
    else if |p| > MAX_PACKET_BYTES then PacketTooLarge
    else if |b.queue| >= QUEUE_PACKETS then QueueOverflow
    else Ok
  }

  function Push(b: Buffer, p: Packet): (Buffer, Status) {
    var status := PushStatus(b, p);
    if status != Ok then (b.(dropped := b.dropped + 1), status)
    else
      var queue := b.queue + [p];
      (b.(queue := queue, underflowing := false,
          prerollMet := b.prerollMet || |queue| * b.stream.frameMs >= b.prerollMs), Ok)
  }

  function Finish(b: Buffer, turnId: string, streamId: string, reason: EndReason): (Buffer, Status) {
    if !b.open then (b, InvalidState)
    else if b.stream.turnId != turnId || b.stream.streamId != streamId then (b, WrongStream)
    else if reason != Completed then (Clear(b), Ok)
    else (b.(open := false, ended := true), Ok)
  }

  function CancelTurn(b: Buffer, turnId: string): (Buffer, Status) {
    if !b.active then (b, InvalidState)
    else if b.stream.turnId != turnId then (b, WrongStream)
    else (Clear(b), Ok)
  }

  function AcknowledgePlayback(b: Buffer, turnId: string, streamId: string): (Buffer, Status) {
    if !b.active then (b, InvalidState)
    else if b.stream.turnId != turnId || b.stream.streamId != streamId then (b, WrongStream)
    else if !b.DeliveryComplete() then (b, InvalidState)
    else (Clear(b), Ok)
  }

  function NoteUnderflow(b: Buffer): Buffer {
    if b.Starved() && !b.underflowing then
      b.(underflows := b.underflows + 1, underflowing := true)
    else b
  }

  /** Hand the oldest packet out, unless the buffer is starved or not ready. */
  function Deliver(b: Buffer, consumer: Consumer): (Buffer, Option<Packet>) {
    if consumer.Absent? then (b, None)
    else
      var b := NoteUnderflow(b);
      if b.Starved() || !b.ReadyForPlayback() || consumer.Declines? then (b, None)
      else (b.(queue := b.queue[1..]), Some(b.queue[0]))
  }

  class AudioOutputBuffer {
    const playbackPrerollMs: int
    var stream: Stream
    var queue: seq<Packet>
    var droppedPackets: nat
    var underflowCount: nat
    var contextActive: bool
    var open: bool
    var ended: bool
    var prerollSatisfied: bool
    var underflowActive: bool

    ghost function View(): Buffer
      reads this
    {
      Buffer(playbackPrerollMs, stream, queue, droppedPackets, underflowCount, contextActive, open,
             ended, prerollSatisfied, underflowActive)
    }

    constructor (prerollMs: int)
      ensures View() == Fresh(prerollMs)
    {
      playbackPrerollMs := prerollMs;
      stream, queue, droppedPackets, underflowCount := NO_STREAM, [], 0, 0;
      contextActive, open, ended, prerollSatisfied, underflowActive := false, false, false, false, false;
    }

    method ClearContext()
      modifies this
      ensures View() == Clear(old(View()))
    {
      queue := [];
      stream := NO_STREAM;
      contextActive := false;
      open := false;
      ended := false;
      prerollSatisfied := false;
      underflowActive := false;
    }

    method Begin(next: Stream) returns (status: Status)
      modifies this
      ensures (View(), status) == Start(old(View()), next)
    {
      if !ValidStream(next) || playbackPrerollMs < 0
         || playbackPrerollMs > QUEUE_PACKETS * next.frameMs {
        return InvalidArgument;
      }
      if contextActive {
        return InvalidState;
      }
      stream := next;
      queue := [];
      contextActive := true;
      open := true;
      ended := false;
      prerollSatisfied := false;
      underflowActive := false;
      return Ok;
    }

    method Append(data: Packet) returns (status: Status)
      modifies this
      ensures (View(), status) == Push(old(View()), data)
    {
      if !open {
        droppedPackets := droppedPackets + 1;
        return InvalidState;
      }
      if data == [] {
        droppedPackets := droppedPackets + 1;
        return InvalidArgument;
      }
      if |data| > MAX_PACKET_BYTES {
        droppedPackets := droppedPackets + 1;
        return PacketTooLarge;
      }
      if |queue| >= QUEUE_PACKETS {
        droppedPackets := droppedPackets + 1;
        return QueueOverflow;
      }
      queue := queue + [data];
      underflowActive := false;
      if |queue| * stream.frameMs >= playbackPrerollMs {
        prerollSatisfied := true;
      }
      return Ok;
    }

    method End(turnId: string, streamId: string, reason: EndReason) returns (status: Status)
      modifies this
      ensures (View(), status) == Finish(old(View()), turnId, streamId, reason)
    {
      if !open {
        return InvalidState;
      }
      if stream.turnId != turnId || stream.streamId != streamId {
        return WrongStream;
      }
      open := false;
      ended := true;
      if reason != Completed {
        ClearContext();
      }
      return Ok;
    }

    method Cancel(turnId: string) returns (status: Status)
      modifies this
      ensures (View(), status) == CancelTurn(old(View()), turnId)
    {
      if !contextActive {
        return InvalidState;
      }
      if stream.turnId != turnId {
        return WrongStream;
      }
      ClearContext();
      return Ok;
    }

    method Acknowledge(turnId: string, streamId: string) returns (status: Status)
      modifies this
      ensures (View(), status) == AcknowledgePlayback(old(View()), turnId, streamId)
    {
      if !contextActive {
        return InvalidState;
      }
      if stream.turnId != turnId || stream.streamId != streamId {
        return WrongStream;
      }
      if !(contextActive && ended && queue == []) {
        return InvalidState;
      }
      ClearContext();
      return Ok;
    }

    method DetectUnderflow() returns (starved: bool)
      modifies this
      ensures starved == old(View()).Starved()
      ensures View() == NoteUnderflow(old(View()))
    {
      if !contextActive || !open || !prerollSatisfied || queue != [] {
        return false;
      }
      if !underflowActive {
        underflowCount := underflowCount + 1;
        underflowActive := true;
      }
      return true;
    }

    /** Both ways of taking a packet: popping it, and offering it to a consumer first. */
    method DeliverNext(consumer: Consumer) returns (packet: Option<Packet>)
      modifies this
      ensures (View(), packet) == Deliver(old(View()), consumer)
    {
      if consumer == Absent {
        return None;
      }
      var starved := DetectUnderflow();
      if starved || !(contextActive && queue != [] && (ended || prerollSatisfied)) {
        return None;
      }
      if consumer == Declines {
        return None;
      }
      packet := Some(queue[0]);
      queue := queue[1..];
    }
  }

  // ---------------------------------------------------------------------------------------------
  // Runs
  // ---------------------------------------------------------------------------------------------

  datatype Event =
    | DoStart(stream: Stream)
    | DoPush(packet: Packet)
    | DoFinish(turnId: string, streamId: string, reason: EndReason)
    | DoCancel(turnId: string)
    | DoAcknowledge(turnId: string, streamId: string)
    | DoDeliver(consumer: Consumer)
    | DoReset

  /** A buffer with what an observer recorded: the packets of the current context that were
      accepted and delivered, every refused push, and the underflows since the last accepted push. */
  datatype Run = Run(buffer: Buffer, accepted: seq<Packet>, delivered: seq<Packet>,
                     refused: nat, underflowsSincePush: nat)

  function Step(r: Run, e: Event): Run {
    match e
    case DoStart(stream) =>
      var (b, status) := Start(r.buffer, stream);
      if status == Ok then r.(buffer := b, accepted := [], delivered := []) else r.(buffer := b)
    case DoPush(packet) =>
      var (b, status) := Push(r.buffer, packet);
      if status == Ok then
        r.(buffer := b, accepted := r.accepted + [packet], underflowsSincePush := 0)
      else r.(buffer := b, refused := r.refused + 1)
    case DoFinish(turnId, streamId, reason) =>
      r.(buffer := Finish(r.buffer, turnId, streamId, reason).0)
    case DoCancel(turnId) => r.(buffer := CancelTurn(r.buffer, turnId).0)
    case DoAcknowledge(turnId, streamId) =>
      r.(buffer := AcknowledgePlayback(r.buffer, turnId, streamId).0)
    case DoDeliver(consumer) =>
      var (b, packet) := Deliver(r.buffer, consumer);
      var rise := b.underflows - r.buffer.underflows;
      Run(b, r.accepted, if packet.Some? then r.delivered + [packet.value] else r.delivered,
          r.refused, if rise > 0 then r.underflowsSincePush + rise else r.underflowsSincePush)
    case DoReset => r.(buffer := Clear(r.buffer))
  }

  function RunOf(prerollMs: int, events: seq<Event>): Run {
    if events == [] then Run(Fresh(prerollMs), [], [], 0, 0)
    else Step(RunOf(prerollMs, events[..|events| - 1]), events[|events| - 1])
  }

  ghost predicate Inv(r: Run) {
    var b := r.buffer;
    && (b.active ==> r.accepted == r.delivered + b.queue)
    && (b.active ==> ValidStream(b.stream) && 0 <= b.prerollMs <= QUEUE_PACKETS * b.stream.frameMs)
    && (b.active <==> b.open || b.ended) && !(b.open && b.ended)
    && (!b.active ==> b.queue == [] && b.stream == NO_STREAM && !b.prerollMet && !b.underflowing)
    && (b.active && r.delivered != [] ==> b.prerollMet || b.ended)
    && (b.open && !b.prerollMet ==> b.queue == [] || |b.queue| * b.stream.frameMs < b.prerollMs)
    && |b.queue| <= QUEUE_PACKETS
    && b.dropped == r.refused
    && r.underflowsSincePush <= 1
    && (b.open && b.prerollMet && !b.underflowing ==> r.underflowsSincePush == 0)
    && (b.underflowing ==> r.underflowsSincePush == 1)
    && (b.prerollMet ==> |r.accepted| * b.stream.frameMs >= b.prerollMs)
  }

  lemma StepKeepsInv(r: Run, e: Event)
    requires Inv(r)
    ensures Inv(Step(r, e))
  {
    match e
    case DoStart(stream) => StartKeepsInv(r, stream);
    case DoPush(packet) => PushKeepsInv(r, packet);
    case DoDeliver(consumer) => DeliverKeepsInv(r, consumer);
    case DoFinish(turnId, streamId, reason) => FinishKeepsInv(r, turnId, streamId, reason);
    case _ => ClearKeepsInv(r);
  }

  lemma StartKeepsInv(r: Run, stream: Stream)
    requires Inv(r)
    ensures Inv(Step(r, DoStart(stream)))
  {
    hide ValidStream;
    var none: seq<Packet> := [];
    assert none + none == none;
  }

  lemma PushKeepsInv(r: Run, packet: Packet)
    requires Inv(r)
    ensures Inv(Step(r, DoPush(packet)))
  {
    hide ValidStream;
    assert r.delivered + (r.buffer.queue + [packet]) == (r.delivered + r.buffer.queue) + [packet];
    LongerStill(|r.accepted|, |r.buffer.queue| + 1, r.buffer.stream.frameMs);
  }

  lemma LongerStill(n: nat, queued: nat, frameMs: int)
    ensures frameMs >= 0 ==> (n + 1) * frameMs >= n * frameMs
    ensures frameMs >= 0 && queued <= n + 1 ==> (n + 1) * frameMs >= queued * frameMs
  {
    if frameMs >= 0 && queued <= n + 1 {
      assert (n + 1 - queued) * frameMs >= 0;
    }
  }

  lemma DeliverKeepsInv(r: Run, consumer: Consumer)
    requires Inv(r)
    ensures Inv(Step(r, DoDeliver(consumer)))
  {
    hide ValidStream;
    var q := r.buffer.queue;
    if q != [] {
      assert (r.delivered + [q[0]]) + q[1..] == r.delivered + q;
    }
  }

  lemma FinishKeepsInv(r: Run, turnId: string, streamId: string, reason: EndReason)
    requires Inv(r)
    ensures Inv(Step(r, DoFinish(turnId, streamId, reason)))
  {
    hide ValidStream;
  }

  /** Dropping the context is the only thing the other calls do to a buffer. */
  lemma ClearKeepsInv(r: Run)
    requires Inv(r)
    ensures Inv(r.(buffer := Clear(r.buffer)))
  {
    hide ValidStream;
  }

  lemma {:induction false} RunInv(prerollMs: int, events: seq<Event>)
    ensures Inv(RunOf(prerollMs, events))
    decreases |events|
  {
    if events != [] {
      RunInv(prerollMs, events[..|events| - 1]);
      StepKeepsInv(RunOf(prerollMs, events[..|events| - 1]), events[|events| - 1]);
    }
  }

  /** Conservation: in every run, the packets accepted in the current context are exactly those
      delivered followed by those still queued, and every refused push is counted. */
  lemma PacketsConserved(prerollMs: int, events: seq<Event>)
    ensures var r := RunOf(prerollMs, events);
      && (r.buffer.active ==> r.accepted == r.delivered + r.buffer.queue)
      && (!r.buffer.active ==> r.buffer.queue == [])
      && r.buffer.dropped == r.refused
      && |r.buffer.queue| <= QUEUE_PACKETS
  {
    RunInv(prerollMs, events);
  }

  /** In every run a packet leaves only when the preroll was met or the stream has ended, and it is
      the oldest accepted packet not delivered before. */
  lemma DeliveryWaitsForPreroll(prerollMs: int, events: seq<Event>, consumer: Consumer)
    ensures var r := RunOf(prerollMs, events);
      var (_, packet) := Deliver(r.buffer, consumer);
      packet.Some? ==>
        && r.buffer.active && (r.buffer.prerollMet || r.buffer.ended)
        && |r.delivered| < |r.accepted| && packet.value == r.accepted[|r.delivered|]
  {
    RunInv(prerollMs, events);
  }

  /** In every run, a willing consumer of an active buffer gets the oldest accepted packet not
      delivered before, exactly if there is one and the stream has ended or the accepted packets
      are as long as the preroll; otherwise it gets nothing. */
  lemma DeliversExactly(prerollMs: int, events: seq<Event>)
    requires RunOf(prerollMs, events).buffer.active
    ensures var r := RunOf(prerollMs, events); var b := r.buffer;
      var packet := Deliver(b, Accepts).1;
      if |r.delivered| < |r.accepted| && (b.ended || |r.accepted| * b.stream.frameMs >= b.prerollMs)
      then packet == Some(r.accepted[|r.delivered|])
      else packet == None
  {
    RunInv(prerollMs, events);
    var r := RunOf(prerollMs, events);
    if r.buffer.queue != [] && !r.buffer.ended && !r.buffer.prerollMet {
      assert r.delivered == [] && r.accepted == r.buffer.queue;
    }
  }

  /** In every run a push is accepted exactly if the stream is open, the packet is of legal size, and
      fewer than 32 accepted packets are undelivered. */
  lemma AcceptsExactly(prerollMs: int, events: seq<Event>, packet: Packet)
    ensures var r := RunOf(prerollMs, events);
      Push(r.buffer, packet).1 == Ok
      <==> r.buffer.open && 0 < |packet| <= MAX_PACKET_BYTES && |r.accepted| - |r.delivered| < QUEUE_PACKETS
  {
    RunInv(prerollMs, events);
  }

  /** In every run an offer counts an underflow exactly if the stream is open, its preroll was met,
      everything accepted is delivered, and none was counted since the last accepted push. */
  lemma UnderflowsExactly(prerollMs: int, events: seq<Event>, consumer: Consumer)
    requires !consumer.Absent?
    ensures var r := RunOf(prerollMs, events); var b := r.buffer;
      Deliver(b, consumer).0.underflows
      == b.underflows + (if b.open && b.prerollMet && r.accepted == r.delivered && r.underflowsSincePush == 0 then 1 else 0)
  {
    RunInv(prerollMs, events);
    var r := RunOf(prerollMs, events);
    if r.buffer.active && r.accepted == r.delivered {
      assert |r.accepted| == |r.delivered| + |r.buffer.queue|;
    }
  }

  /** Offer a buffer to a willing consumer a number of times. */
  function Offers(b: Buffer, n: nat): (Buffer, seq<Packet>)
    decreases n
  {
    if n == 0 then (b, [])
    else
      var (b', packet) := Deliver(b, Accepts);
      var (last, more) := Offers(b', n - 1);
      (last, (if packet.Some? then [packet.value] else []) + more)
  }

  lemma {:induction false} EndedDrains(b: Buffer)
    requires b.active && b.ended && !b.open
    ensures Offers(b, |b.queue|) == (b.(queue := []), b.queue)
    decreases |b.queue|
  {
    if b.queue == [] {
      assert b.(queue := []) == b;
    } else {
      var rest := b.(queue := b.queue[1..]);
      EndedDrains(rest);
      assert rest.(queue := []) == b.(queue := []);
      assert [b.queue[0]] + b.queue[1..] == b.queue;
    }
  }

  /** In every run, when the end of the open stream is announced, as many offers as packets wait hand
      all of them out in order, and playback can then be acknowledged, which closes the context. */
  lemma EndedStreamCompletes(prerollMs: int, events: seq<Event>)
    requires RunOf(prerollMs, events).buffer.open
    ensures var r := RunOf(prerollMs, events); var s := r.buffer.stream;
      var (ended, status) := Finish(r.buffer, s.turnId, s.streamId, Completed);
      var (drained, packets) := Offers(ended, |r.buffer.queue|);
      && status == Ok && r.delivered + packets == r.accepted
      && AcknowledgePlayback(drained, s.turnId, s.streamId) == (Clear(drained), Ok)
  {
    RunInv(prerollMs, events);
    var r := RunOf(prerollMs, events);
    EndedDrains(Finish(r.buffer, r.buffer.stream.turnId, r.buffer.stream.streamId, Completed).0);
  }

  /** In every run an open buffer whose preroll is unmet takes another well-formed packet, so
      prerolling cannot deadlock on a full queue. */
  lemma PrerollHasRoom(prerollMs: int, events: seq<Event>, packet: Packet)
    requires 0 < |packet| <= MAX_PACKET_BYTES
    ensures var b := RunOf(prerollMs, events).buffer;
      b.open && !b.prerollMet ==> Push(b, packet).1 == Ok
  {
    RunInv(prerollMs, events);
  }

  /** Number of pushes a suffix of a run accepts. */
  function AcceptedPushes(r: Run, events: seq<Event>): nat
    decreases |events|
  {
    if events == [] then 0
    else
      (if events[0].DoPush? && Push(r.buffer, events[0].packet).1 == Ok then 1 else 0)
      + AcceptedPushes(Step(r, events[0]), events[1..])
  }

  function StepAll(r: Run, events: seq<Event>): Run
    decreases |events|
  {
    if events == [] then r else StepAll(Step(r, events[0]), events[1..])
  }

  lemma {:induction false} RunOfAppend(prerollMs: int, past: seq<Event>, more: seq<Event>)
    ensures RunOf(prerollMs, past + more) == StepAll(RunOf(prerollMs, past), more)
    decreases |more|
  {
    if more == [] {
      assert past + more == past;
    } else {
      var once := past + [more[0]];
      assert once[..|once| - 1] == past;
      assert past + more == once + more[1..];
      RunOfAppend(prerollMs, once, more[1..]);
    }
  }

  /** A step that accepts no push moves both underflow counts alike. */
  lemma RiseIsCounted(r: Run, e: Event)
    requires Inv(r) && !(e.DoPush? && Push(r.buffer, e.packet).1 == Ok)
    ensures Step(r, e).underflowsSincePush - r.underflowsSincePush
         == Step(r, e).buffer.underflows - r.buffer.underflows >= 0
  {
  }

  lemma {:induction false} RisesUntilPush(r: Run, events: seq<Event>)
    requires Inv(r) && AcceptedPushes(r, events) == 0
    ensures StepAll(r, events).underflowsSincePush - r.underflowsSincePush
         == StepAll(r, events).buffer.underflows - r.buffer.underflows >= 0
    ensures Inv(StepAll(r, events))
    decreases |events|
  {
    hide Step, Inv, Push;
    if events != [] {
      StepKeepsInv(r, events[0]);
      RiseIsCounted(r, events[0]);
      RisesUntilPush(Step(r, events[0]), events[1..]);
    }
  }

  /** Between any two points of any run with no accepted push between them, the underflow counter
      rises by at most one. */
  lemma UnderflowOncePerPush(prerollMs: int, past: seq<Event>, more: seq<Event>)
    requires AcceptedPushes(RunOf(prerollMs, past), more) == 0
    ensures 0 <= RunOf(prerollMs, past + more).buffer.underflows - RunOf(prerollMs, past).buffer.underflows <= 1
  {
    RunInv(prerollMs, past);
    RunOfAppend(prerollMs, past, more);
    RisesUntilPush(RunOf(prerollMs, past), more);
  }
}
