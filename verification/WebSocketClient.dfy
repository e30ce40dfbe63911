/** The client's receive path as an object that works through the chunks TCP hands it. */
module WebSocketClients {
  import opened Wrappers
  import opened WebSocketReceive

  const U64: nat := 0x1_0000_0000_0000_0000

  function Pow256(n: nat): nat {
    if n == 0 then 1 else 256 * Pow256(n - 1)
  }

  lemma {:induction false} BigEndianBound(b: Bytes)
    ensures BigEndian(b) < Pow256(|b|)
    decreases |b|
  {
    if b != [] {
      BigEndianBound(b[..|b| - 1]);
    }
  }

  lemma EightBytesFit(n: nat)
    requires n <= 8
    ensures Pow256(n) <= U64
    decreases 8 - n
  {
    assert Pow256(4) == 0x1_0000_0000;
    assert Pow256(8) == 256 * 256 * 256 * 256 * Pow256(4);
    if n < 8 {
      EightBytesFit(n + 1);
    }
  }

  datatype Status = NeedMoreData | Complete | MessageTooLarge | ProtocolError

  datatype FrameHeader = FrameHeader(status: Status, headerBytes: nat, payloadBytes: nat, opcode: nat, final: bool)

  /** The 64-bit length field, read with 64-bit arithmetic. */
  method ReadLength64(data: Bytes) returns (payload: nat)
    requires |data| >= 10
    ensures payload == BigEndian(data[2..10])
  {
    payload := 0;
    var index := 0;
    while index < 8
      invariant 0 <= index <= 8 && payload == BigEndian(data[2..2 + index])
    {
      var field := data[2..2 + index + 1];
      assert field[..|field| - 1] == data[2..2 + index];
      BigEndianBound(field);
      EightBytesFit(index + 1);
      payload := (payload * 256 + data[2 + index]) % U64;
      index := index + 1;
    }
  }

  /** Look at a frame header against the bytes a message may still grow by. */
  method InspectFrameHeader(data: Bytes, remaining: nat) returns (r: FrameHeader)
    ensures match ParseHeader(data)
      case Incomplete =>
        r.status == if |data| >= 2 && BadStart(data[0], data[1]) then ProtocolError else NeedMoreData
      case Malformed => r.status == ProtocolError
      case Header(final, opcode, bytes, payload) =>
        if payload > remaining then r.status == MessageTooLarge
        else r == FrameHeader(Complete, bytes, payload, opcode, final)
  {
    r := FrameHeader(NeedMoreData, 0, 0, 0, false);
    if |data| < 2 {
      return;
    }
    r := r.(final := data[0] >= 128, opcode := data[0] % 16);
    if data[0] % 128 / 16 != 0 || data[1] >= 128 || !KnownOpcode(r.opcode) {
      return r.(status := ProtocolError);
    }
    var encodedLength := data[1] % 128;
    r := r.(headerBytes := 2, payloadBytes := encodedLength);
    if encodedLength == 126 {
      if |data| < 4 {
        return;
      }
      r := r.(headerBytes := 4, payloadBytes := (data[2] as int) * 256 + data[3]);
      assert data[2..4][..1] == [data[2]] && [data[2]][..0] == [];
      assert BigEndian([data[2]]) == data[2];
      if r.payloadBytes < 126 {
        return r.(status := ProtocolError);
      }
    } else if encodedLength == 127 {
      if |data| < 10 {
        return;
      }
      r := r.(headerBytes := 10);
      if data[2] >= 128 {
        return r.(status := ProtocolError);
      }
      var payload := ReadLength64(data);
      r := r.(payloadBytes := payload);
      if r.payloadBytes < 65536 {
        return r.(status := ProtocolError);
      }
    }
    if r.opcode >= 8 && (!r.final || r.payloadBytes > 125) {
      return r.(status := ProtocolError);
    }
    if r.payloadBytes > remaining {
      return r.(status := MessageTooLarge);
    }
    return r.(status := Complete);
  }

  /** Where collecting bytes for the next frame ended. */
  datatype Verdict = NeedMore | Refuse | Ready(header: FrameHeader)

  /** Every buffer strictly before the last byte of the chunk was undecided. */
  predicate QuietUpTo(limit: nat, r: Receiver, chunk: Bytes) {
    forall k :: 0 <= k < |chunk| ==> Quiet(limit, r.(buffer := r.buffer + chunk[..k]))
  }

  lemma QuietExtend(limit: nat, r: Receiver, chunk: Bytes, b: byte)
    requires QuietUpTo(limit, r, chunk) && Quiet(limit, r.(buffer := r.buffer + chunk))
    ensures QuietUpTo(limit, r, chunk + [b])
  {
    forall k | 0 <= k < |chunk + [b]| ensures Quiet(limit, r.(buffer := r.buffer + (chunk + [b])[..k])) {
      if k < |chunk| {
        assert (chunk + [b])[..k] == chunk[..k];
      } else {
        assert (chunk + [b])[..k] == chunk;
      }
    }
  }

  /** Bytes collected quietly act all at once. */
  lemma ActAtOnce(limit: nat, accepts: Bytes -> bool, r: Receiver, chunk: Bytes, rest: Bytes)
    requires r.open && Quiet(limit, r) && QuietUpTo(limit, r, chunk)
    ensures var o := Settle(limit, r.(buffer := r.buffer + chunk));
      Feed(limit, accepts, r, chunk + rest) == Then(o, Feed(limit, accepts, o.state, rest))
  {
    hide Settle;
    FeedAppend(limit, accepts, r, chunk, rest);
    if chunk == [] {
      assert r.buffer + chunk == r.buffer;
      assert r.(buffer := r.buffer) == r;
    } else {
      Collect(limit, accepts, r, chunk);
    }
  }

  /** However the buffer is extended, it stays undecided below a size. */
  ghost predicate QuietBelow(limit: nat, r: Receiver, size: nat) {
    forall more: Bytes :: |r.buffer + more| < size ==> Quiet(limit, r.(buffer := r.buffer + more))
  }

  lemma QuietBelowHeader(limit: nat, r: Receiver)
    ensures QuietBelow(limit, r, 2)
    ensures |r.buffer| >= 2 ==> QuietBelow(limit, r, HeaderBytes(r.buffer[1]))
  {
  }

  lemma QuietBelowFrame(limit: nat, r: Receiver)
    requires var h := ParseHeader(r.buffer); h.Header? && Legal(limit, r.partial, h)
    ensures var h := ParseHeader(r.buffer); QuietBelow(limit, r, h.bytes + h.payload)
  {
    var h := ParseHeader(r.buffer);
    forall more: Bytes | |r.buffer + more| < h.bytes + h.payload
      ensures Quiet(limit, r.(buffer := r.buffer + more))
    {
      HeaderPrefix(r.buffer, more);
    }
  }

  class WebSocket {
    const limit: nat
    const accepts: Bytes -> bool
    var handshakeCompleted: bool
    var receiveBuffer: Bytes
    var currentMessage: Bytes
    var isFragmented: bool
    var isBinary: bool

    ghost function View(): Receiver
      reads this
    {
      Receiver(handshakeCompleted, receiveBuffer,
               if isFragmented then Partial(currentMessage, isBinary) else NoPartial)
    }

    ghost predicate Valid()
      reads this
    {
      Settled(limit, View()) && (!isFragmented ==> currentMessage == [])
    }

    constructor (limit: nat, accepts: Bytes -> bool)
      ensures this.limit == limit && this.accepts == accepts
      ensures Valid() && View() == FRESH
    {
      this.limit := limit;
      this.accepts := accepts;
      handshakeCompleted, receiveBuffer, currentMessage, isFragmented, isBinary := false, [], [], false, false;
    }

    method Fail(e: Event) returns (events: seq<Event>)
      modifies this`receiveBuffer, this`currentMessage, this`isFragmented
      ensures Outcome(View(), events, true) == Failure(old(View()), e)
      ensures !isFragmented && currentMessage == [] && receiveBuffer == []
    {
      receiveBuffer := [];
      currentMessage := [];
      isFragmented := false;
      events := [e];
    }

    /** Collect bytes up to a size below which the buffer is undecided. */
    method CollectUpTo(data: Bytes, offset: nat, size: nat, ghost start: Receiver, ghost from: nat) returns (next: nat)
      requires from <= offset <= |data| && View() == start.(buffer := start.buffer + data[from..offset])
      requires QuietUpTo(limit, start, data[from..offset]) && QuietBelow(limit, View(), size)
      modifies this`receiveBuffer
      ensures offset <= next <= |data| && View() == start.(buffer := start.buffer + data[from..next])
      ensures receiveBuffer == old(receiveBuffer) + data[offset..next]
      ensures QuietUpTo(limit, start, data[from..next])
      ensures |receiveBuffer| >= size || next == |data|
      ensures |receiveBuffer| <= size || next == offset
    {
      hide Quiet, Settled;
      next := offset;
      ghost var before := View();
      while |receiveBuffer| < size && next < |data|
        invariant offset <= next <= |data| && receiveBuffer == before.buffer + data[offset..next]
        invariant View() == start.(buffer := start.buffer + data[from..next])
        invariant QuietUpTo(limit, start, data[from..next])
        invariant |receiveBuffer| <= size || next == offset
      {
        assert Quiet(limit, before.(buffer := before.buffer + data[offset..next]));
        QuietExtend(limit, start, data[from..next], data[next]);
        assert data[from..next + 1] == data[from..next] + [data[next]];
        assert data[offset..next + 1] == data[offset..next] + [data[next]];
        receiveBuffer := receiveBuffer + [data[next]];
        next := next + 1;
      }
    }

    /** Collect the next frame's header. */
    method GatherHeader(data: Bytes, offset: nat) returns (next: nat, complete: bool)
      requires offset <= |data| && Quiet(limit, View())
      modifies this`receiveBuffer
      ensures offset <= next <= |data| && View() == old(View()).(buffer := old(receiveBuffer) + data[offset..next])
      ensures QuietUpTo(limit, old(View()), data[offset..next])
      ensures !complete ==> next == |data| && ParseHeader(receiveBuffer).Incomplete?
      ensures complete ==> !ParseHeader(receiveBuffer).Incomplete?
      ensures complete ==> |receiveBuffer| == HeaderBytes(receiveBuffer[1]) || View() == old(View())
    {
      hide Quiet, Settled;
      ghost var start := View();
      assert data[offset..offset] == [] && start.buffer + [] == start.buffer;
      QuietBelowHeader(limit, View());
      next := CollectUpTo(data, offset, 2, start, offset);
      if |receiveBuffer| < 2 {
        return next, false;
      }
      QuietBelowHeader(limit, View());
      var encodedLength := receiveBuffer[1] % 128;
      var required := if encodedLength == 126 then 4 else if encodedLength == 127 then 10 else 2;
      next := CollectUpTo(data, next, required, start, offset);
      return next, |receiveBuffer| >= required;
    }

    /** Whether the header in the buffer may be followed at all. */
    method CheckHeader() returns (ok: bool, header: FrameHeader)
      requires !ParseHeader(receiveBuffer).Incomplete? && |currentMessage| <= limit
      requires !isFragmented ==> currentMessage == []
      ensures !ok ==> Settle(limit, View()) == Failure(View(), ProtocolFailure)
      ensures ok ==>
        && ParseHeader(receiveBuffer) == Header(header.final, header.opcode, header.headerBytes, header.payloadBytes)
        && Legal(limit, View().partial, ParseHeader(receiveBuffer))
    {
      header := FrameHeader(NeedMoreData, 0, 0, 0, false);
      var opcode := receiveBuffer[0] % 16;
      if (opcode == 0 && !isFragmented) || ((opcode == 1 || opcode == 2) && isFragmented) {
        return false, header;
      }
      var remaining: nat := if opcode <= 2 then limit - |currentMessage| else limit;
      header := InspectFrameHeader(receiveBuffer, remaining);
      return header.status == Complete, header;
    }

    /** Collect the next frame, or find that its header must be refused. */
    method GatherFrame(data: Bytes, offset: nat) returns (next: nat, verdict: Verdict)
      requires Valid() && handshakeCompleted && offset <= |data|
      modifies this`receiveBuffer
      ensures offset <= next <= |data| && View() == old(View()).(buffer := old(receiveBuffer) + data[offset..next])
      ensures QuietUpTo(limit, old(View()), data[offset..next])
      ensures verdict.NeedMore? ==> next == |data| && Quiet(limit, View())
      ensures verdict.Refuse? ==> Settle(limit, View()) == Failure(View(), ProtocolFailure)
      ensures verdict.Ready? ==>
        && ParseHeader(receiveBuffer) == Header(verdict.header.final, verdict.header.opcode, verdict.header.headerBytes,
                                                verdict.header.payloadBytes)
        && Legal(limit, View().partial, ParseHeader(receiveBuffer))
        && |receiveBuffer| == verdict.header.headerBytes + verdict.header.payloadBytes
    {
      hide ParseHeader;
      ghost var start := View();
      var complete;
      next, complete := GatherHeader(data, offset);
      if !complete {
        return next, NeedMore;
      }
      var ok, header := CheckHeader();
      if !ok {
        return next, Refuse;
      }
      var size := header.headerBytes + header.payloadBytes;
      assert |receiveBuffer| <= size;
      ghost var (decided, at) := (receiveBuffer, next);
      QuietBelowFrame(limit, View());
      next := CollectUpTo(data, next, size, start, offset);
      HeaderPrefix(decided, data[at..next]);
      return next, if |receiveBuffer| < size then NeedMore else Ready(header);
    }

    /** Deliver the frame in the buffer. */
    method Dispatch(header: FrameHeader) returns (events: seq<Event>)
      requires handshakeCompleted && |currentMessage| <= limit && (!isFragmented ==> currentMessage == [])
      requires ParseHeader(receiveBuffer) == Header(header.final, header.opcode, header.headerBytes, header.payloadBytes)
      requires Legal(limit, View().partial, ParseHeader(receiveBuffer))
      requires |receiveBuffer| == header.headerBytes + header.payloadBytes
      modifies this
      ensures Outcome(View(), events, false) == Settle(limit, old(View()))
      ensures Valid() && handshakeCompleted && receiveBuffer == []
    {
      events := [];
      var payload := receiveBuffer[header.headerBytes..];
      if header.opcode == 0 {
        currentMessage := currentMessage + payload;
        if header.final {
          events := [Message(currentMessage, isBinary)];
          currentMessage := [];
          isFragmented := false;
        }
      } else if header.opcode == 1 || header.opcode == 2 {
        isBinary := header.opcode == 2;
        if header.final {
          events := [Message(payload, isBinary)];
        } else {
          currentMessage := payload;
          isFragmented := true;
        }
      } else if header.opcode == 8 {
        events := [Closed];
      } else if header.opcode == 9 {
        events := [PingAnswered(payload)];
      } else if header.opcode == 10 {
        if |payload| == 0 {
          events := [PongSeen];
        }
      }
      receiveBuffer := [];
    }

    /** One byte of the handshake response. */
    method TakeResponseByte(b: byte) returns (events: seq<Event>, failed: bool)
      requires Valid() && !handshakeCompleted
      modifies this
      ensures Outcome(View(), events, failed) == Take(limit, accepts, old(View()), b)
      ensures !failed ==> Valid()
    {
      TakeSettles(limit, accepts, View(), b);
      if |receiveBuffer| == limit {
        events := Fail(HandshakeRefused);
        return events, true;
      }
      receiveBuffer := receiveBuffer + [b];
      if |receiveBuffer| >= 4 && receiveBuffer[|receiveBuffer| - 4..] == CRLF_CRLF {
        if !accepts(receiveBuffer) {
          events := Fail(HandshakeRefused);
          return events, true;
        }
        receiveBuffer := [];
        handshakeCompleted := true;
        return [HandshakeAccepted], false;
      }
      return [], false;
    }

    /** The handshake part of a chunk: one byte at a time up to the blank line. */
    method TakeResponse(data: Bytes) returns (offset: nat, events: seq<Event>, failed: bool)
      requires Valid()
      modifies this
      ensures offset <= |data|
      ensures Feed(limit, accepts, old(View()), data)
           == Then(Outcome(View(), events, failed), Feed(limit, accepts, View(), data[offset..]))
      ensures !failed ==> Valid() && (handshakeCompleted || offset == |data|)
    {
      hide Take, Settled;
      offset, events, failed := 0, [], false;
      assert data[0..] == data;
      while !handshakeCompleted && offset < |data|
        invariant offset <= |data| && Valid() && !failed
        invariant Feed(limit, accepts, old(View()), data)
               == Then(Outcome(View(), events, false), Feed(limit, accepts, View(), data[offset..]))
      {
        ghost var taken := Take(limit, accepts, View(), data[offset]);
        assert data[offset..][0] == data[offset] && data[offset..][1..] == data[offset + 1..];
        ThenAssociates(events, taken, Feed(limit, accepts, taken.state, data[offset + 1..]));
        var e;
        e, failed := TakeResponseByte(data[offset]);
        events := events + e;
        offset := offset + 1;
        if failed {
          return;
        }
      }
    }

    /** One turn of the frame loop: deliver the next frame, fail on it, or run out of data. */
    method NextFrame(data: Bytes, offset: nat) returns (next: nat, events: seq<Event>, stop: bool, failed: bool)
      requires Valid() && handshakeCompleted && offset <= |data| && (offset < |data| || receiveBuffer != [])
      modifies this
      ensures offset <= next <= |data|
      ensures Feed(limit, accepts, old(View()), data[offset..])
           == Then(Outcome(View(), events, failed), Feed(limit, accepts, View(), data[next..]))
      ensures failed ==> stop
      ensures !failed ==> Valid() && handshakeCompleted
      ensures stop && !failed ==> next == |data|
      ensures !stop ==> offset < next
    {
      hide Settle, QuietUpTo, ParseHeader;
      ghost var r := View();
      var verdict;
      next, verdict := GatherFrame(data, offset);
      ghost var chunk := data[offset..next];
      assert data[offset..] == chunk + data[next..];
      ActAtOnce(limit, accepts, r, chunk, data[next..]);
      events, stop, failed := [], true, false;
      match verdict
      case NeedMore =>
      case Refuse =>
        events := Fail(ProtocolFailure);
        failed := true;
      case Ready(header) =>
        assert offset == next ==> r.buffer + chunk == r.buffer;
        assert offset < next by { NotYetWhole(limit, r, chunk); }
        events := Dispatch(header);
        stop := false;
    }

    method OnTcpData(data: Bytes) returns (events: seq<Event>, failed: bool)
      requires Valid()
      modifies this
      ensures Outcome(View(), events, failed) == Feed(limit, accepts, old(View()), data)
      ensures !failed ==> Valid()
    {
      hide Settled, Take;
      var offset;
      offset, events, failed := TakeResponse(data);
      if failed || !handshakeCompleted {
        return;
      }
      while offset < |data| || receiveBuffer != []
        invariant offset <= |data| && Valid() && handshakeCompleted && !failed
        invariant Feed(limit, accepts, old(View()), data)
               == Then(Outcome(View(), events, false), Feed(limit, accepts, View(), data[offset..]))
        decreases |data| - offset
      {
        ghost var past := events;
        var next, e, stop;
        next, e, stop, failed := NextFrame(data, offset);
        ThenAssociates(past, Outcome(View(), e, failed), Feed(limit, accepts, View(), data[next..]));
        events := events + e;
        offset := next;
        if stop {
          return;
        }
      }
    }
  }

  /** An undecided buffer is no whole frame. */
  lemma NotYetWhole(limit: nat, r: Receiver, chunk: Bytes)
    requires Quiet(limit, r)
    ensures var h := ParseHeader(r.buffer + chunk);
      h.Header? && Legal(limit, r.partial, h) && |r.buffer + chunk| == h.bytes + h.payload ==> chunk != []
  {
    if chunk == [] {
      assert r.buffer + chunk == r.buffer;
    }
  }

  lemma ThenAssociates(past: seq<Event>, o: Outcome<Receiver>, rest: Outcome<Receiver>)
    ensures Then(o, rest).events == if o.failed then o.events else o.events + rest.events
    ensures past + Then(o, rest).events
         == if o.failed then past + o.events else (past + o.events) + rest.events
  {
  }
}
