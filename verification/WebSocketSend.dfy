/** Sending WebSocket frames: masking and fragmentation, undone by what a server does. */
module WebSocketSend {
  import opened Wrappers
  import opened Arithmetic
  import Receive = WebSocketReceive
  import Server = WebSocketServer

  type Bytes = seq<byte>

  /** A masking key of four bytes. */
  type Mask = m: Bytes | |m| == 4 witness [0, 0, 0, 0]

  // ----- Exclusive or ---------------------------------------------------------------------------

  function Pow2(n: nat): (p: nat)
    ensures p > 0
  {
    if n == 0 then 1 else 2 * Pow2(n - 1)
  }

  /** Bitwise exclusive or of the lowest `n` bits. */
  function XorBits(a: nat, b: nat, n: nat): nat {
    if n == 0 then 0 else (if a % 2 == b % 2 then 0 else 1) + 2 * XorBits(a / 2, b / 2, n - 1)
  }

  lemma {:induction false} XorBitsTwice(a: nat, b: nat, n: nat)
    ensures XorBits(a, b, n) < Pow2(n)
    ensures a < Pow2(n) ==> XorBits(XorBits(a, b, n), b, n) == a
    decreases n
  {
    if n > 0 {
      XorBitsTwice(a / 2, b / 2, n - 1);
    }
  }

  function Xor(a: byte, b: byte): (c: byte)
  {
    XorBitsTwice(a, b, 8);
    assert Pow2(4) == 16 && Pow2(8) == 16 * Pow2(4);
    XorBits(a, b, 8)
  }

  function Bit(a: nat, i: nat): bool {
    a / Pow2(i) % 2 == 1
  }

  lemma HalvesFirst(a: nat, p: nat)
    requires p > 0
    ensures a / (2 * p) == a / 2 / p
  {
    var q := a / 2 / p;
    assert q * p <= a / 2 < q * p + p;
    assert q * (2 * p) == 2 * (q * p);
    QuotientIs(a, 2 * p, q);
  }

  lemma BitOfHalf(a: nat, i: nat)
    requires i > 0
    ensures Bit(a, i) == Bit(a / 2, i - 1)
  {
    var p := Pow2(i - 1);
    assert Pow2(i) == 2 * p;
    HalvesFirst(a, p);
    hide Pow2;
  }

  lemma {:induction false} XorBitsBit(a: nat, b: nat, n: nat, i: nat)
    requires i < n
    ensures Bit(XorBits(a, b, n), i) == (Bit(a, i) != Bit(b, i))
    decreases n
  {
    var x := XorBits(a, b, n);
    HalfOfXor(a, b, n);
    BitZero(a);
    BitZero(b);
    BitZero(x);
    hide Bit, XorBits;
    if i > 0 {
      XorBitsBit(a / 2, b / 2, n - 1, i - 1);
      BitOfHalf(a, i);
      BitOfHalf(b, i);
      BitOfHalf(x, i);
    }
  }

  lemma HalfOfXor(a: nat, b: nat, n: nat)
    requires n > 0
    ensures var x := XorBits(a, b, n);
      x / 2 == XorBits(a / 2, b / 2, n - 1) && x % 2 == if a % 2 == b % 2 then 0 else 1
  {
  }

  lemma BitZero(a: nat)
    ensures Bit(a, 0) <==> a % 2 == 1
  {
    assert Pow2(0) == 1;
  }

  /** Exclusive or, bit by bit. */
  lemma XorOfBits(a: byte, b: byte, i: nat)
    requires i < 8
    ensures Bit(Xor(a, b), i) == (Bit(a, i) != Bit(b, i))
  {
    XorBitsBit(a, b, 8, i);
  }

  lemma XorTwice(a: byte, b: byte)
    ensures Xor(Xor(a, b), b) == a
  {
    XorBitsTwice(a, b, 8);
    assert Pow2(4) == 16 && Pow2(8) == 16 * Pow2(4);
  }

  /** Section 5.3 of RFC 6455: byte i is combined with byte i mod 4 of the key. */
  function Masked(mask: Mask, payload: Bytes): (m: Bytes)
    ensures |m| == |payload|
    ensures forall i :: 0 <= i < |payload| ==> m[i] == Xor(payload[i], mask[i % 4])
  {
    seq(|payload|, i requires 0 <= i < |payload| => Xor(payload[i], mask[i % 4]))
  }

  lemma MaskedTwice(mask: Mask, payload: Bytes)
    ensures Masked(mask, Masked(mask, payload)) == payload
  {
    var once := Masked(mask, payload);
    forall i | 0 <= i < |payload| ensures Masked(mask, once)[i] == payload[i] {
      XorTwice(payload[i], mask[i % 4]);
    }
  }

  // ----- Frames ---------------------------------------------------------------------------------

  const MAX_PAYLOAD: nat := 65535

  function LengthField(n: nat): Bytes
    requires n <= MAX_PAYLOAD
  {
    if n < 126 then [128 + n] else [128 + 126, n / 256, n % 256]
  }

  function Frame(final: bool, opcode: nat, mask: Mask, payload: Bytes): Bytes
    requires opcode < 16 && |payload| <= MAX_PAYLOAD
  {
    [(if final then 128 else 0) + opcode] + LengthField(|payload|) + mask + Masked(mask, payload)
  }

  /** A client's frame is laid out like a server's but for the mask: its bit is set, and the key comes
      between the length and the masked payload. */
  lemma FrameLayout(final: bool, opcode: nat, mask: Mask, payload: Bytes)
    requires opcode < 16 && |payload| <= MAX_PAYLOAD
    ensures var h := Server.ServerHeader(final, opcode, |payload|);
      Frame(final, opcode, mask, payload) == [h[0], h[1] + 128] + h[2..] + mask + Masked(mask, payload)
  {
    hide Masked;
    var n := |payload|;
    var h := Server.ServerHeader(final, opcode, n);
    if n >= 126 {
      TwoBytes(n);
      assert h[2..] == [n / 256, n % 256];
    } else {
      assert h[2..] == [];
    }
    assert [h[0], h[1] + 128] + h[2..] == [h[0]] + LengthField(n);
  }

  lemma TwoBytes(n: nat)
    requires n < 0x1_0000
    ensures Server.Network(n, 2) == [n / 256, n % 256]
  {
    assert Server.Network(n / 256 / 256, 0) == [];
    assert Server.Network(n / 256, 1) == [n / 256 % 256];
  }

  datatype Received = Received(final: bool, opcode: nat, payload: Bytes, bytes: nat)

  /** A server reads one masked frame: sections 5.2 and 5.3 of RFC 6455. */
  function Unframe(b: Bytes): (r: Option<Received>)
    ensures r.Some? ==> 0 < r.value.bytes <= |b| && r.value.opcode < 16
  {
    if |b| < 2 || b[1] < 128 || b[0] % 128 / 16 != 0 then None
    else
      var (header, length) :=
        if b[1] == 128 + 126 then (if |b| < 4 then (4, 0) else (4, (b[2] as int) * 256 + b[3]))
        else if b[1] == 128 + 127 then (if |b| < 10 then (10, 0) else (10, Receive.BigEndian(b[2..10])))
        else (2, b[1] as int - 128);
      if |b| < header + 4 + length then None
      else
        var mask := b[header..header + 4];
        Some(Received(b[0] >= 128, b[0] % 16, Masked(mask, b[header + 4..header + 4 + length]), header + 4 + length))
  }

  /** Every frame sent is read back: unmasked, whole, and nothing of what follows. */
  lemma FrameRoundTrip(final: bool, opcode: nat, mask: Mask, payload: Bytes, rest: Bytes)
    requires opcode < 16 && |payload| <= MAX_PAYLOAD
    ensures var frame := Frame(final, opcode, mask, payload);
      Unframe(frame + rest) == Some(Received(final, opcode, payload, |frame|))
  {
    hide Xor, Masked;
    var b := Frame(final, opcode, mask, payload) + rest;
    var header := 1 + |LengthField(|payload|)|;
    assert b[header..header + 4] == mask;
    assert b[header + 4..header + 4 + |payload|] == Masked(mask, payload);
    assert forall i :: 0 <= i < |LengthField(|payload|)| ==> b[1 + i] == LengthField(|payload|)[i];
    MaskedTwice(mask, payload);
  }

  // ----- A sender -------------------------------------------------------------------------------

  /** The opcode of the next frame and whether a message stays open after it. */
  function Opcode(continuation: bool, binary: bool): nat {
    if binary then 2 else if continuation then 0 else 1
  }

  class WebSocketSender {
    var continuation: bool

    constructor ()
      ensures !continuation
    {
      continuation := false;
    }

    /** `mask` is what the system's random source yields; `linked` says there is a TCP connection and
        `sent` whether it took the frame. */
    method Send(data: Option<Bytes>, binary: bool, final: bool, mask: Mask, linked: bool, sent: bool)
      returns (ok: bool, frame: Bytes)
      modifies this
      ensures !linked || data.None? || |data.value| > MAX_PAYLOAD ==>
        !ok && frame == [] && continuation == old(continuation)
      ensures linked && data.Some? && |data.value| <= MAX_PAYLOAD ==>
        && ok == sent && continuation == !final
        && frame == Frame(final, Opcode(old(continuation), binary), mask, data.value)
    {
      if !linked || data == None || |data.value| > MAX_PAYLOAD {
        return false, [];
      }
      var payload := data.value;
      var size := |payload|;
      var firstByte := if final then 128 else 0;
      firstByte := firstByte + if binary then 2 else if continuation then 0 else 1;
      frame := [firstByte];
      if size < 126 {
        frame := frame + [128 + size];
      } else {
        frame := frame + [128 + 126];
        frame := frame + [size / 256 % 256];
        frame := frame + [size % 256];
      }
      assert frame == [firstByte] + LengthField(size);
      frame := frame + mask;
      ghost var head := frame;
      var index := 0;
      while index < size
        invariant 0 <= index <= size && frame == head + Masked(mask, payload)[..index]
      {
        frame := frame + [Xor(payload[index], mask[index % 4])];
        index := index + 1;
      }
      assert Masked(mask, payload)[..size] == Masked(mask, payload);
      continuation := !final;
      return sent, frame;
    }

    /** A ping, pong or close frame; it leaves a message in progress alone. */
    method SendControlFrame(opcode: nat, data: Bytes, mask: Mask, linked: bool, sent: bool)
      returns (ok: bool, frame: Bytes)
      requires opcode < 16
      ensures !linked || |data| > 125 ==> !ok && frame == []
      ensures linked && |data| <= 125 ==> ok == sent && frame == Frame(true, opcode, mask, data)
    {
      if !linked || |data| > 125 {
        return false, [];
      }
      frame := [128 + opcode, 128 + |data|] + mask;
      ghost var head := frame;
      assert head == [128 + opcode] + LengthField(|data|) + mask;
      for index := 0 to |data|
        invariant frame == head + Masked(mask, data)[..index]
      {
        frame := frame + [Xor(data[index], mask[index % 4])];
      }
      assert Masked(mask, data)[..|data|] == Masked(mask, data);
      return sent, frame;
    }
  }

  // ----- Messages -------------------------------------------------------------------------------

  /** One message sent in parts, each part in a frame of its own, the last one final. */
  datatype Part = Part(payload: Bytes, mask: Mask)

  predicate Sendable(parts: seq<Part>) {
    forall i :: 0 <= i < |parts| ==> |parts[i].payload| <= MAX_PAYLOAD
  }

  function SendParts(continuation: bool, binary: bool, parts: seq<Part>): Bytes
    requires Sendable(parts)
    decreases |parts|
  {
    if parts == [] then []
    else
      var final := |parts| == 1;
      Frame(final, Opcode(continuation, binary), parts[0].mask, parts[0].payload)
      + SendParts(!final, binary, parts[1..])
  }

  function Payloads(parts: seq<Part>): Bytes {
    if parts == [] then [] else parts[0].payload + Payloads(parts[1..])
  }

  /** A server puts messages together: section 5.4 of RFC 6455. Whether it got to the end of the
      bytes without a protocol error is the last component. */
  function ServerReceives(p: Receive.Partial, b: Bytes): (Receive.Partial, seq<Receive.Event>, bool)
    decreases |b|
  {
    if b == [] then (p, [], true)
    else match Unframe(b)
      case None => (p, [], false)
      case Some(r) =>
        if (r.opcode == 0 && p.NoPartial?) || ((r.opcode == 1 || r.opcode == 2) && p.Partial?) then (p, [], false)
        else
          var (p', events) := Receive.Apply(p, Receive.Header(r.final, r.opcode, 0, 0), r.payload);
          var (last, more, ok) := ServerReceives(p', b[r.bytes..]);
          (last, events + more, ok)
  }

  lemma ReceiveOne(p: Receive.Partial, final: bool, opcode: nat, mask: Mask, payload: Bytes, rest: Bytes)
    requires opcode < 16 && |payload| <= MAX_PAYLOAD
    ensures var b := Frame(final, opcode, mask, payload) + rest;
      ServerReceives(p, b) ==
        if (opcode == 0 && p.NoPartial?) || ((opcode == 1 || opcode == 2) && p.Partial?) then (p, [], false)
        else
          var (p', events) := Receive.Apply(p, Receive.Header(final, opcode, 0, 0), payload);
          var (last, more, ok) := ServerReceives(p', rest);
          (last, events + more, ok)
  {
    var frame := Frame(final, opcode, mask, payload);
    FrameRoundTrip(final, opcode, mask, payload, rest);
    assert (frame + rest)[|frame|..] == rest;
  }

  lemma ReceiveNothing(p: Receive.Partial)
    ensures ServerReceives(p, []) == (p, [], true)
  {
  }

  /** The rest of a text message, given what the server has of it. */
  lemma {:induction false} ContinueText(soFar: Bytes, parts: seq<Part>)
    requires Sendable(parts) && parts != []
    ensures ServerReceives(Receive.Partial(soFar, false), SendParts(true, false, parts))
         == (Receive.NoPartial, [Receive.Message(soFar + Payloads(parts), false)], true)
    decreases |parts|
  {
    hide Frame, ServerReceives;
    ReceiveNothing(Receive.NoPartial);
    var part := parts[0];
    var final := |parts| == 1;
    var rest := SendParts(!final, false, parts[1..]);
    ReceiveOne(Receive.Partial(soFar, false), final, 0, part.mask, part.payload, rest);
    assert soFar + Payloads(parts) == (soFar + part.payload) + Payloads(parts[1..]);
    var message := [Receive.Message(soFar + Payloads(parts), false)];
    assert [] + message == message && message + [] == message;
    if final {
      assert parts[1..] == [] && rest == [] && soFar + Payloads(parts) == soFar + part.payload;
    } else {
      ContinueText(soFar + part.payload, parts[1..]);
    }
  }

  /** A message sent in parts by a sender with no message in progress reaches the server as that one
      message exactly when it is text or goes out in a single frame: a binary message in several
      frames repeats the binary opcode and is a protocol error. */
  lemma MessageArrivesExactly(binary: bool, parts: seq<Part>)
    requires Sendable(parts) && parts != []
    ensures ServerReceives(Receive.NoPartial, SendParts(false, binary, parts))
         == (Receive.NoPartial, [Receive.Message(Payloads(parts), binary)], true)
       <==> !binary || |parts| == 1
  {
    hide Frame, ServerReceives;
    ReceiveNothing(Receive.NoPartial);
    var part := parts[0];
    var final := |parts| == 1;
    var rest := SendParts(!final, binary, parts[1..]);
    ReceiveOne(Receive.NoPartial, final, Opcode(false, binary), part.mask, part.payload, rest);
    var message := [Receive.Message(Payloads(parts), binary)];
    assert [] + message == message && message + [] == message;
    if final {
      assert parts[1..] == [] && rest == [] && Payloads(parts) == part.payload;
    } else if !binary {
      ContinueText(part.payload, parts[1..]);
    } else {
      var next := parts[1];
      assert parts[1..][0] == next;
      ReceiveOne(Receive.Partial(part.payload, true), |parts| == 2, 2, next.mask, next.payload,
                 SendParts(|parts| != 2, true, parts[1..][1..]));
    }
  }
}
