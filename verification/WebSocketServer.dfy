/** What a server writes, sections 5.2, 5.4 and 5.5 of RFC 6455, and that the client's receiver reads
    exactly that. */
module WebSocketServer {
  import opened Wrappers
  import opened Arithmetic
  import opened WebSocketReceive

  const MAX_LENGTH: nat := 0x8000_0000_0000_0000

  // ----- Frames ---------------------------------------------------------------------------------

  datatype Frame = Frame(final: bool, opcode: nat, payload: Bytes)

  /** The opcodes of section 5.2; control frames are whole and short. */
  predicate LegalFrame(final: bool, opcode: nat, length: nat) {
    && opcode in {0, 1, 2, 8, 9, 10} && length < MAX_LENGTH
    && (opcode in {8, 9, 10} ==> final && length <= 125)
  }

  /** A number in `k` bytes, the most significant first. */
  function Network(n: nat, k: nat): (b: Bytes)
    ensures |b| == k
  {
    if k == 0 then [] else Network(n / 256, k - 1) + [n % 256]
  }

  /** The shortest of the three forms of a length. */
  function LengthField(n: nat): Bytes {
    if n < 126 then [n]
    else if n < 0x1_0000 then [126] + Network(n, 2)
    else [127] + Network(n, 8)
  }

  function ServerHeader(final: bool, opcode: nat, length: nat): Bytes
    requires opcode < 16
  {
    [(if final then 128 else 0) + opcode] + LengthField(length)
  }

  function FrameBytes(f: Frame): Bytes
    requires f.opcode < 16
  {
    ServerHeader(f.final, f.opcode, |f.payload|) + f.payload
  }

  // ----- Numbers --------------------------------------------------------------------------------

  function Pow256(k: nat): nat {
    if k == 0 then 1 else 256 * Pow256(k - 1)
  }

  lemma {:induction false} NetworkReads(n: nat, k: nat)
    requires n < Pow256(k)
    ensures BigEndian(Network(n, k)) == n
    decreases k
  {
    if k > 0 {
      NetworkReads(n / 256, k - 1);
      assert Network(n, k)[..k - 1] == Network(n / 256, k - 1);
    }
  }

  lemma {:induction false} NetworkOfRead(b: Bytes)
    ensures Network(BigEndian(b), |b|) == b && BigEndian(b) < Pow256(|b|)
    decreases |b|
  {
    if b != [] {
      var (front, last) := (b[..|b| - 1], b[|b| - 1]);
      NetworkOfRead(front);
      assert BigEndian(b) / 256 == BigEndian(front) && BigEndian(b) % 256 == last;
      assert b == front + [last];
    }
  }

  lemma Powers()
    ensures Pow256(1) == 256 && Pow256(2) == 0x1_0000 && Pow256(8) == 2 * MAX_LENGTH
  {
    assert Pow256(4) == 0x1_0000_0000;
    assert Pow256(8) == 256 * 256 * 256 * 256 * Pow256(4);
  }

  /** The first byte of an eight-byte number says whether its top bit is set. */
  lemma TopBit(b: Bytes)
    requires |b| == 8
    ensures b[0] >= 128 <==> BigEndian(b) >= MAX_LENGTH
  {
    Leading(b, 8);
    Powers();
    assert Pow256(7) * 256 == Pow256(8);
  }

  lemma {:induction false} Leading(b: Bytes, k: nat)
    requires |b| == k > 0
    ensures b[0] as int * Pow256(k - 1) <= BigEndian(b) < (b[0] as int + 1) * Pow256(k - 1)
    decreases k
  {
    if k == 1 {
      assert b[..0] == [];
    } else {
      var front := b[..k - 1];
      Leading(front, k - 1);
      Scaled(b[0], Pow256(k - 2), BigEndian(front), b[k - 1]);
    }
  }

  lemma Scaled(x: nat, p: nat, n: nat, last: byte)
    requires x * p <= n < (x + 1) * p
    ensures x * (256 * p) <= n * 256 + last < (x + 1) * (256 * p)
  {
    assert x * (256 * p) == 256 * (x * p) && (x + 1) * (256 * p) == 256 * ((x + 1) * p);
  }

  // ----- Headers --------------------------------------------------------------------------------

  lemma LengthReads(n: nat)
    requires n < MAX_LENGTH
    ensures var b := LengthField(n);
      && b[0] < 128 && |b| + 1 == HeaderBytes(b[0])
      && (if |b| == 1 then b[0] as int else BigEndian(b[1..])) == n
      && (|b| == 3 ==> n >= 126) && (|b| == 9 ==> n >= 65536 && b[1] < 128)
  {
    Powers();
    if n >= 0x1_0000 {
      NetworkReads(n, 8);
      TopBit(Network(n, 8));
      assert LengthField(n)[1..] == Network(n, 8);
    } else if n >= 126 {
      NetworkReads(n, 2);
      assert LengthField(n)[1..] == Network(n, 2);
    }
  }

  /** What a server writes as a header is read as that header, whatever follows. */
  lemma HeaderReads(final: bool, opcode: nat, length: nat, rest: Bytes)
    requires LegalFrame(final, opcode, length)
    ensures var h := ServerHeader(final, opcode, length);
      ParseHeader(h + rest) == Header(final, opcode, |h|, length)
  {
    var h := ServerHeader(final, opcode, length);
    var b := h + rest;
    var field := LengthField(length);
    LengthReads(length);
    assert h[0] == (if final then 128 else 0) + opcode && h[1] == field[0];
    assert b[0] == h[0] && b[1] == h[1] && (|field| == 9 ==> b[2] == field[1]);
    assert b[2..|h|] == field[1..];
    FirstByte(final, opcode);
    hide BigEndian, LengthField;
  }

  lemma FirstByte(final: bool, opcode: nat)
    requires opcode < 16
    ensures var x := (if final then 128 else 0) + opcode;
      x % 128 / 16 == 0 && x % 16 == opcode && (x >= 128 <==> final)
  {
  }

  /** And nothing else is read as a header. */
  lemma ReadIsHeader(b: Bytes)
    requires ParseHeader(b).Header?
    ensures var h := ParseHeader(b);
      && LegalFrame(h.final, h.opcode, h.payload)
      && h.bytes <= |b| && b[..h.bytes] == ServerHeader(h.final, h.opcode, h.payload)
  {
    var h := ParseHeader(b);
    FirstByteSplits(b[0]);
    assert b[..h.bytes] == [b[0]] + ([b[1]] + b[2..h.bytes]);
    ReadIsLength(b);
    hide BigEndian, LengthField;
  }

  lemma FirstByteSplits(x: byte)
    requires x % 128 / 16 == 0
    ensures x == (if x >= 128 then 128 else 0) + x % 16
  {
  }

  lemma ReadIsLength(b: Bytes)
    requires ParseHeader(b).Header?
    ensures var h := ParseHeader(b); h.payload < MAX_LENGTH && LengthField(h.payload) == [b[1]] + b[2..h.bytes]
  {
    var h := ParseHeader(b);
    var field := b[2..h.bytes];
    ReadIsNumber(field, h.payload);
    hide BigEndian, Network, Pow256;
    if h.bytes == 2 {
      assert field == [] && b[1] == h.payload;
    } else if h.bytes == 4 {
      assert b[1] == 126;
    } else {
      assert b[1] == 127;
    }
  }

  lemma ReadIsNumber(field: Bytes, n: nat)
    requires |field| > 0 ==> n == BigEndian(field)
    ensures |field| > 0 ==> Network(n, |field|) == field
    ensures |field| == 2 ==> n < 0x1_0000
    ensures |field| == 8 ==> (field[0] >= 128 <==> n >= MAX_LENGTH)
  {
    NetworkOfRead(field);
    Powers();
    hide BigEndian, Network, Pow256;
    if |field| == 8 {
      TopBit(field);
    }
  }

  /** Some bytes are read as a header exactly if they begin with one that a server may write. */
  lemma HeaderIff(b: Bytes, final: bool, opcode: nat, bytes: nat, length: nat)
    ensures ParseHeader(b) == Header(final, opcode, bytes, length)
       <==> LegalFrame(final, opcode, length) && ServerHeader(final, opcode, length) <= b
            && bytes == |ServerHeader(final, opcode, length)|
  {
    hide ParseHeader, ServerHeader, LegalFrame;
    if ParseHeader(b) == Header(final, opcode, bytes, length) {
      ReadIsHeader(b);
    }
    if LegalFrame(final, opcode, length) {
      OpcodeFits(final, opcode, length);
      var h := ServerHeader(final, opcode, length);
      if h <= b {
        assert b == h + b[|h|..];
        HeaderReads(final, opcode, length, b[|h|..]);
      }
    }
  }

  lemma OpcodeFits(final: bool, opcode: nat, length: nat)
    requires LegalFrame(final, opcode, length)
    ensures opcode < 16
  {
  }

  /** A whole frame is taken apart into its flag, opcode and payload. */
  lemma FrameReads(limit: nat, p: Partial, f: Frame, rest: Bytes)
    requires LegalFrame(f.final, f.opcode, |f.payload|)
    ensures var h := Header(f.final, f.opcode, |ServerHeader(f.final, f.opcode, |f.payload|)|, |f.payload|);
      DecodeFrames(limit, p, FrameBytes(f) + rest) ==
        if !Legal(limit, p, h) then ([ProtocolFailure], true)
        else
          var (p', events) := Apply(p, h, f.payload);
          var (more, failed) := DecodeFrames(limit, p', rest);
          (events + more, failed)
  {
    var header := ServerHeader(f.final, f.opcode, |f.payload|);
    var b := FrameBytes(f) + rest;
    assert b == header + (f.payload + rest);
    HeaderReads(f.final, f.opcode, |f.payload|, f.payload + rest);
    var n := |header| + |f.payload|;
    assert b[|header|..n] == f.payload && b[n..] == rest;
    hide ParseHeader, ServerHeader, Legal, Apply;
  }

  // ----- Messages -------------------------------------------------------------------------------

  datatype Control = Ping(payload: Bytes) | Pong(payload: Bytes) | Close(payload: Bytes)

  predicate GoodControl(limit: nat, c: Control) { |c.payload| <= 125 && |c.payload| <= limit }

  function ControlFrame(c: Control): Frame {
    Frame(true, match c case Close(_) => 8 case Ping(_) => 9 case Pong(_) => 10, c.payload)
  }

  /** What a control frame makes the client do: pings are answered with their payload, a pong without
      payload is noticed, and a close ends the connection. */
  function Reaction(c: Control): seq<Event> {
    match c
    case Ping(payload) => [PingAnswered(payload)]
    case Pong(payload) => if payload == [] then [PongSeen] else []
    case Close(_) => [Closed]
  }

  /** A fragment of a message, and the control frames the server puts before it. */
  datatype Part = Part(controls: seq<Control>, piece: Bytes)

  predicate GoodParts(limit: nat, parts: seq<Part>) {
    forall i, j :: 0 <= i < |parts| && 0 <= j < |parts[i].controls| ==> GoodControl(limit, parts[i].controls[j])
  }

  function ControlsBytes(controls: seq<Control>): Bytes {
    if controls == [] then [] else FrameBytes(ControlFrame(controls[0])) + ControlsBytes(controls[1..])
  }

  function Reactions(controls: seq<Control>): seq<Event> {
    if controls == [] then [] else Reaction(controls[0]) + Reactions(controls[1..])
  }

  /** The bytes of the fragments of a message: the first names its kind, the last is final. */
  function PartsBytes(parts: seq<Part>, opcode: nat): Bytes
    requires opcode < 16
  {
    if parts == [] then []
    else
      ControlsBytes(parts[0].controls) + FrameBytes(Frame(|parts| == 1, opcode, parts[0].piece))
      + PartsBytes(parts[1..], 0)
  }

  function Text(parts: seq<Part>): Bytes {
    if parts == [] then [] else parts[0].piece + Text(parts[1..])
  }

  function PartsReactions(parts: seq<Part>): seq<Event> {
    if parts == [] then [] else Reactions(parts[0].controls) + PartsReactions(parts[1..])
  }

  lemma {:induction false} ControlsRead(limit: nat, p: Partial, controls: seq<Control>, rest: Bytes)
    requires forall i :: 0 <= i < |controls| ==> GoodControl(limit, controls[i])
    ensures var (more, failed) := DecodeFrames(limit, p, rest);
      DecodeFrames(limit, p, ControlsBytes(controls) + rest) == (Reactions(controls) + more, failed)
    decreases |controls|
  {
    hide FrameBytes, DecodeFrames;
    var more := DecodeFrames(limit, p, rest).0;
    if controls == [] {
      assert [] + rest == rest && [] + more == more;
    } else {
      var c := controls[0];
      ControlsRead(limit, p, controls[1..], rest);
      ControlReads(limit, p, c, ControlsBytes(controls[1..]) + rest);
      var frame := FrameBytes(ControlFrame(c));
      assert ControlsBytes(controls) + rest == frame + (ControlsBytes(controls[1..]) + rest);
      assert Reaction(c) + (Reactions(controls[1..]) + more) == Reactions(controls) + more;
    }
  }

  lemma ControlReads(limit: nat, p: Partial, c: Control, rest: Bytes)
    requires GoodControl(limit, c)
    ensures var (more, failed) := DecodeFrames(limit, p, rest);
      DecodeFrames(limit, p, FrameBytes(ControlFrame(c)) + rest) == (Reaction(c) + more, failed)
  {
    FrameReads(limit, p, ControlFrame(c), rest);
    hide FrameBytes, ServerHeader, DecodeFrames;
  }

  /** One data frame, where it may come: it ends or continues its message. */
  lemma PieceReads(limit: nat, p: Partial, binary: bool, final: bool, piece: Bytes, rest: Bytes)
    requires SoFar(p) + |piece| <= limit && |piece| < MAX_LENGTH && (p.Partial? ==> p.binary == binary)
    ensures var opcode := if p.Partial? then 0 else if binary then 2 else 1;
      var whole := (if p.Partial? then p.soFar else []) + piece;
      var (more, failed) := DecodeFrames(limit, if final then NoPartial else Partial(whole, binary), rest);
      DecodeFrames(limit, p, FrameBytes(Frame(final, opcode, piece)) + rest)
      == ((if final then [Message(whole, binary)] else []) + more, failed)
  {
    var opcode := if p.Partial? then 0 else if binary then 2 else 1;
    FrameReads(limit, p, Frame(final, opcode, piece), rest);
    assert [] + piece == piece;
    hide FrameBytes, ServerHeader, DecodeFrames;
  }

  /** What is left of a message, given what the client has of it. */
  lemma {:induction false} PartsRead(limit: nat, p: Partial, binary: bool, parts: seq<Part>, rest: Bytes)
    requires limit < MAX_LENGTH && parts != [] && GoodParts(limit, parts) && (p.Partial? ==> p.binary == binary)
    requires SoFar(p) + |Text(parts)| <= limit
    ensures var opcode := if p.Partial? then 0 else if binary then 2 else 1;
      var whole := (if p.Partial? then p.soFar else []) + Text(parts);
      var (more, failed) := DecodeFrames(limit, NoPartial, rest);
      DecodeFrames(limit, p, PartsBytes(parts, opcode) + rest)
      == (PartsReactions(parts) + [Message(whole, binary)] + more, failed)
    decreases |parts|
  {
    hide FrameBytes, DecodeFrames, ControlsBytes, Reactions, GoodControl;
    var opcode := if p.Partial? then 0 else if binary then 2 else 1;
    var soFar := if p.Partial? then p.soFar else [];
    var (part, later) := (parts[0], parts[1..]);
    var final := |parts| == 1;
    var next := if final then NoPartial else Partial(soFar + part.piece, binary);
    var tail := PartsBytes(later, 0) + rest;
    var frame := FrameBytes(Frame(final, opcode, part.piece));
    Grouped(ControlsBytes(part.controls), frame, PartsBytes(later, 0), rest);
    ControlsRead(limit, p, part.controls, frame + tail);
    PieceReads(limit, p, binary, final, part.piece, tail);
    var more := DecodeFrames(limit, NoPartial, rest).0;
    var events := Reactions(part.controls);
    assert soFar + Text(parts) == (soFar + part.piece) + Text(later);
    if final {
      Last(events, [Message(soFar + Text(parts), binary)], more);
      assert later == [] && tail == rest && soFar + Text(parts) == soFar + part.piece;
      assert PartsReactions(parts) == events;
    } else {
      assert forall i :: 0 <= i < |later| ==> later[i] == parts[i + 1];
      PartsRead(limit, next, binary, later, rest);
      Regrouped(events, PartsReactions(later), [Message(soFar + Text(parts), binary)], more);
    }
  }

  lemma Grouped(a: Bytes, b: Bytes, c: Bytes, d: Bytes)
    ensures a + b + c + d == a + (b + (c + d))
  {
  }

  lemma Last(a: seq<Event>, b: seq<Event>, c: seq<Event>)
    ensures a + (b + c) == a + b + c && a + [] == a
  {
  }

  lemma Regrouped(a: seq<Event>, b: seq<Event>, c: seq<Event>, d: seq<Event>)
    ensures a + ([] + (b + c + d)) == a + b + c + d
  {
  }

  // ----- Conversations --------------------------------------------------------------------------

  datatype ServerMessage = ServerMessage(binary: bool, parts: seq<Part>)

  function MessageBytes(m: ServerMessage): Bytes {
    PartsBytes(m.parts, if m.binary then 2 else 1)
  }

  function MessageEvents(m: ServerMessage): seq<Event> {
    PartsReactions(m.parts) + [Message(Text(m.parts), m.binary)]
  }

  function ConversationBytes(ms: seq<ServerMessage>): Bytes {
    if ms == [] then [] else MessageBytes(ms[0]) + ConversationBytes(ms[1..])
  }

  function ConversationEvents(ms: seq<ServerMessage>): seq<Event> {
    if ms == [] then [] else MessageEvents(ms[0]) + ConversationEvents(ms[1..])
  }

  predicate GoodMessage(limit: nat, m: ServerMessage) {
    m.parts != [] && GoodParts(limit, m.parts) && |Text(m.parts)| <= limit
  }

  lemma {:induction false} ConversationReads(limit: nat, ms: seq<ServerMessage>, rest: Bytes)
    requires limit < MAX_LENGTH && forall i :: 0 <= i < |ms| ==> GoodMessage(limit, ms[i])
    ensures var (more, failed) := DecodeFrames(limit, NoPartial, rest);
      DecodeFrames(limit, NoPartial, ConversationBytes(ms) + rest) == (ConversationEvents(ms) + more, failed)
    decreases |ms|
  {
    hide DecodeFrames, PartsBytes, PartsReactions, Text, GoodParts;
    var more := DecodeFrames(limit, NoPartial, rest).0;
    if ms == [] {
      assert [] + rest == rest && [] + more == more;
    } else {
      var m := ms[0];
      assert GoodMessage(limit, m);
      var tail := ConversationBytes(ms[1..]) + rest;
      ConversationReads(limit, ms[1..], rest);
      PartsRead(limit, NoPartial, m.binary, m.parts, tail);
      assert ConversationBytes(ms) + rest == MessageBytes(m) + tail;
      assert [] + Text(m.parts) == Text(m.parts);
      assert MessageEvents(m) + (ConversationEvents(ms[1..]) + more) == ConversationEvents(ms) + more;
    }
  }

  /** After an accepted response, whatever messages a server sends within the limit, cut into whatever
      fragments and with whatever control frames before and between them, and however TCP cuts the
      bytes, the client delivers exactly those messages and reacts once to each control frame. */
  lemma ServerIsHeard(limit: nat, accepts: Bytes -> bool, response: Bytes, ms: seq<ServerMessage>, chunks: seq<Bytes>)
    requires limit < MAX_LENGTH && forall i :: 0 <= i < |ms| ==> GoodMessage(limit, ms[i])
    requires |response| <= limit && EndsHeaders(response) && accepts(response)
    requires forall i :: 0 <= i < |response| ==> !EndsHeaders(response[..i])
    requires Joined(chunks) == response + ConversationBytes(ms)
    ensures var o := FeedChunks(limit, accepts, FRESH, chunks);
      !o.failed && o.events == [HandshakeAccepted] + ConversationEvents(ms)
  {
    hide DecodeFrames, ConversationBytes, GoodMessage, ConversationEvents, FeedChunks, EndsHeaders;
    SplitsDoNotMatter(limit, accepts, chunks);
    var b := response + ConversationBytes(ms);
    ResponseFound(response, ConversationBytes(ms));
    assert b[..|response|] == response && b[|response|..] == ConversationBytes(ms);
    ConversationReads(limit, ms, []);
    NothingMore(limit);
    assert ConversationBytes(ms) + [] == ConversationBytes(ms) && ConversationEvents(ms) + [] == ConversationEvents(ms);
  }

  lemma NothingMore(limit: nat)
    ensures DecodeFrames(limit, NoPartial, []) == ([], false)
  {
  }

  lemma ResponseFound(response: Bytes, rest: Bytes)
    requires EndsHeaders(response) && forall i :: 0 <= i < |response| ==> !EndsHeaders(response[..i])
    ensures ResponseLength(response + rest, 0) == |response|
  {
    var b := response + rest;
    var k := ResponseLength(b, 0);
    assert b[..|response|] == response;
    assert forall i :: 0 <= i < |response| ==> b[..i] == response[..i];
    hide EndsHeaders, ResponseLength;
  }

  // ----- What is refused ------------------------------------------------------------------------

  /** A legal frame that does not belong where it comes, or would outgrow the limit, ends the
      connection: a continuation of nothing, a new message inside another, too much payload. */
  lemma MisplacedFrameFails(limit: nat, p: Partial, f: Frame, rest: Bytes)
    requires LegalFrame(f.final, f.opcode, |f.payload|)
    requires || (f.opcode == 0 && p.NoPartial?)
             || (f.opcode in {1, 2} && p.Partial?)
             || |f.payload| + (if f.opcode in {0, 1, 2} then SoFar(p) else 0) > limit
    ensures DecodeFrames(limit, p, FrameBytes(f) + rest) == ([ProtocolFailure], true)
  {
    FrameReads(limit, p, f, rest);
    hide FrameBytes, ServerHeader, DecodeFrames;
  }

  /** Bytes that are long enough for a header but do not begin with one a server may write end the
      connection. */
  lemma ForeignHeaderFails(limit: nat, p: Partial, b: Bytes)
    requires |b| >= 2 && |b| >= HeaderBytes(b[1])
    requires forall final, opcode: nat, length :: LegalFrame(final, opcode, length) ==> !(ServerHeader(final, opcode, length) <= b)
    ensures DecodeFrames(limit, p, b) == ([ProtocolFailure], true)
  {
    if ParseHeader(b).Header? {
      ReadIsHeader(b);
    }
  }
}
