/** Receiving WebSocket data: the client's incremental parser, and a decoder of the whole stream
    that says what it must deliver however TCP cuts the bytes. */
module WebSocketReceive {
  import opened Wrappers

  type Bytes = seq<byte>

  const CRLF_CRLF: Bytes := [13, 10, 13, 10]

  // ----- Frame headers, section 5.2 of RFC 6455 -------------------------------------------------

  function BigEndian(b: Bytes): nat {
    if b == [] then 0 else BigEndian(b[..|b| - 1]) * 256 + b[|b| - 1] as int
  }

  function HeaderBytes(second: byte): nat {
    var length := second % 128;
    if length == 126 then 4 else if length == 127 then 10 else 2
  }

  datatype Header = Incomplete | Malformed | Header(final: bool, opcode: nat, bytes: nat, payload: nat)

  predicate KnownOpcode(opcode: nat) {
    opcode <= 2 || opcode == 8 || opcode == 9 || opcode == 10
  }

  /** The first two bytes already break the rules: a reserved bit, a mask or an unknown opcode. */
  predicate BadStart(first: byte, second: byte) {
    first % 128 / 16 != 0 || second >= 128 || !KnownOpcode(first % 16)
  }

  /** The header at the start of some bytes. A server's frame is unmasked, has no reserved bits set
      and encodes its length as short as it can; a control frame is whole and short. */
  function ParseHeader(b: Bytes): (h: Header)
    ensures h.Header? ==> |b| >= 2 && h.bytes == HeaderBytes(b[1]) <= |b|
    ensures h.Incomplete? <==> |b| < 2 || |b| < HeaderBytes(b[1])
  {
    if |b| < 2 || |b| < HeaderBytes(b[1]) then Incomplete
    else
      var opcode := b[0] % 16;
      var final := b[0] >= 128;
      var n := HeaderBytes(b[1]);
      var payload := if n == 2 then b[1] as int % 128 else BigEndian(b[2..n]);
      if BadStart(b[0], b[1]) then Malformed
      else if (n == 4 && payload < 126) || (n == 10 && (b[2] >= 128 || payload < 65536)) then Malformed
      else if opcode >= 8 && (!final || payload > 125) then Malformed
      else Header(final, opcode, n, payload)
  }

  /** A header depends on nothing after it. */
  lemma HeaderPrefix(b: Bytes, more: Bytes)
    requires !ParseHeader(b).Incomplete?
    ensures ParseHeader(b + more) == ParseHeader(b)
  {
    assert (b + more)[2..HeaderBytes(b[1])] == b[2..HeaderBytes(b[1])];
  }

  // ----- Events ---------------------------------------------------------------------------------

  datatype Event =
    | HandshakeAccepted
    | HandshakeRefused
    | Message(payload: Bytes, binary: bool)
    | Closed
    | PingAnswered(payload: Bytes)
    | PongSeen
    | ProtocolFailure

  /** A message of which only the first fragments arrived. */
  datatype Partial = NoPartial | Partial(soFar: Bytes, binary: bool)

  function SoFar(p: Partial): nat {
    if p.Partial? then |p.soFar| else 0
  }

  /** Sections 5.4 and 5.5: fragments continue a message that was begun, control frames may come in
      between, and no message outgrows the receive limit. */
  predicate Legal(limit: nat, p: Partial, h: Header)
    requires h.Header?
  {
    && !(h.opcode == 0 && p.NoPartial?)
    && !((h.opcode == 1 || h.opcode == 2) && p.Partial?)
    && h.payload <= (if h.opcode <= 2 then limit - SoFar(p) else limit)
  }

  /** What one whole frame does. */
  function Apply(p: Partial, h: Header, payload: Bytes): (Partial, seq<Event>)
    requires h.Header? && (h.opcode == 0 ==> p.Partial?)
  {
    if h.opcode == 0 then
      var whole := p.soFar + payload;
      if h.final then (NoPartial, [Message(whole, p.binary)]) else (Partial(whole, p.binary), [])
    else if h.opcode == 1 || h.opcode == 2 then
      if h.final then (p, [Message(payload, h.opcode == 2)]) else (Partial(payload, h.opcode == 2), [])
    else if h.opcode == 8 then (p, [Closed])
    else if h.opcode == 9 then (p, [PingAnswered(payload)])
    else (p, if payload == [] then [PongSeen] else [])
  }

  datatype Outcome<S> = Outcome(state: S, events: seq<Event>, failed: bool)

  // ----- Whole-stream reference -----------------------------------------------------------------

  /** Decode a stream of frames from its start, given what is left of a fragmented message. */
  function DecodeFrames(limit: nat, p: Partial, b: Bytes): (seq<Event>, bool)
    decreases |b|
  {
    var h := ParseHeader(b);
    if h.Incomplete? then ([], false)
    else if h.Malformed? || !Legal(limit, p, h) then ([ProtocolFailure], true)
    else if |b| < h.bytes + h.payload then ([], false)
    else
      var n := h.bytes + h.payload;
      var (p', events) := Apply(p, h, b[h.bytes..n]);
      var (more, failed) := DecodeFrames(limit, p', b[n..]);
      (events + more, failed)
  }

  predicate EndsHeaders(b: Bytes): (ends: bool)
    ensures ends ==> |b| >= 4
  {
    |b| >= 4 && b[|b| - 4..] == CRLF_CRLF
  }

  /** Length of the handshake response: up to the first blank line. */
  function ResponseLength(b: Bytes, from: nat): (k: nat)
    requires from <= |b|
    ensures from <= k <= |b|
    ensures forall i :: from < i < k ==> !EndsHeaders(b[..i])
    ensures k == |b| || (k > from && EndsHeaders(b[..k]))
    decreases |b| - from
  {
    if from == |b| then from
    else if EndsHeaders(b[..from + 1]) then from + 1
    else ResponseLength(b, from + 1)
  }

  /** Decode everything a connection receives. */
  function DecodeStream(limit: nat, accepts: Bytes -> bool, b: Bytes): (seq<Event>, bool) {
    var k := ResponseLength(b, 0);
    if k > limit then ([HandshakeRefused], true)
    else if !EndsHeaders(b[..k]) then ([], false)
    else if !accepts(b[..k]) then ([HandshakeRefused], true)
    else
      var (events, failed) := DecodeFrames(limit, NoPartial, b[k..]);
      ([HandshakeAccepted] + events, failed)
  }

  // ----- The incremental parser, byte by byte ---------------------------------------------------

  datatype Receiver = Receiver(open: bool, buffer: Bytes, partial: Partial)

  const FRESH: Receiver := Receiver(false, [], NoPartial)

  /** After a failure everything collected is dropped. */
  function Failure(r: Receiver, e: Event): Outcome<Receiver> {
    Outcome(r.(buffer := [], partial := NoPartial), [e], true)
  }

  /** Act on the buffer if it holds a header that must be refused or a whole frame. */
  function Settle(limit: nat, r: Receiver): Outcome<Receiver> {
    var h := ParseHeader(r.buffer);
    if h.Incomplete? then Outcome(r, [], false)
    else if h.Malformed? || !Legal(limit, r.partial, h) then Failure(r, ProtocolFailure)
    else if |r.buffer| < h.bytes + h.payload then Outcome(r, [], false)
    else
      var (p, events) := Apply(r.partial, h, r.buffer[h.bytes..]);
      Outcome(r.(buffer := [], partial := p), events, false)
  }

  function Take(limit: nat, accepts: Bytes -> bool, r: Receiver, b: byte): Outcome<Receiver> {
    if r.open then Settle(limit, r.(buffer := r.buffer + [b]))
    else if |r.buffer| >= limit then Failure(r, HandshakeRefused)
    else
      var response := r.buffer + [b];
      if !EndsHeaders(response) then Outcome(r.(buffer := response), [], false)
      else if accepts(response) then Outcome(Receiver(true, [], r.partial), [HandshakeAccepted], false)
      else Failure(r, HandshakeRefused)
  }

  /** Bytes in order, up to the first failure. */
  function Feed(limit: nat, accepts: Bytes -> bool, r: Receiver, b: Bytes): Outcome<Receiver>
    decreases |b|
  {
    if b == [] then Outcome(r, [], false)
    else
      var first := Take(limit, accepts, r, b[0]);
      if first.failed then first
      else
        var rest := Feed(limit, accepts, first.state, b[1..]);
        rest.(events := first.events + rest.events)
  }

  function Then(a: Outcome<Receiver>, b: Outcome<Receiver>): Outcome<Receiver> {
    if a.failed then a else b.(events := a.events + b.events)
  }

  lemma {:induction false} FeedAppend(limit: nat, accepts: Bytes -> bool, r: Receiver, a: Bytes, b: Bytes)
    ensures var first := Feed(limit, accepts, r, a);
      Feed(limit, accepts, r, a + b) == Then(first, Feed(limit, accepts, first.state, b))
    decreases |a|
  {
    if a == [] {
      assert a + b == b;
    } else {
      assert (a + b)[0] == a[0] && (a + b)[1..] == a[1..] + b;
      var first := Take(limit, accepts, r, a[0]);
      if !first.failed {
        FeedAppend(limit, accepts, first.state, a[1..], b);
        var middle := Feed(limit, accepts, first.state, a[1..]);
        var last := Feed(limit, accepts, middle.state, b);
        assert first.events + (middle.events + last.events) == (first.events + middle.events) + last.events;
      }
    }
  }

  // ----- The parser collects quietly until a frame is decided -----------------------------------

  /** Nothing is decided yet by what is in the buffer. */
  predicate Quiet(limit: nat, r: Receiver) {
    Settle(limit, r) == Outcome(r, [], false)
  }

  lemma {:induction false} Collect(limit: nat, accepts: Bytes -> bool, r: Receiver, b: Bytes)
    requires r.open && b != []
    requires forall k :: 0 < k < |b| ==> Quiet(limit, r.(buffer := r.buffer + b[..k]))
    ensures Feed(limit, accepts, r, b) == Settle(limit, r.(buffer := r.buffer + b))
    decreases |b|
  {
    var n := |b| - 1;
    var last := [b[n]];
    assert b == b[..n] + last;
    FeedAppend(limit, accepts, r, b[..n], last);
    var all := r.buffer + b;
    if n > 0 {
      forall k | 0 < k < n ensures Quiet(limit, r.(buffer := r.buffer + b[..n][..k])) {
        assert b[..n][..k] == b[..k];
      }
      Collect(limit, accepts, r, b[..n]);
      assert Quiet(limit, r.(buffer := r.buffer + b[..n]));
    } else {
      assert b[..n] == [] && r.buffer + [] == r.buffer;
    }
    var held := r.(buffer := r.buffer + b[..n]);
    assert held.buffer + last == all;
    assert last[1..] == [];
    var settled := Settle(limit, r.(buffer := all));
    assert Feed(limit, accepts, held, last) == settled.(events := settled.events + []);
    assert settled.events + [] == settled.events;
    assert [] + settled.events == settled.events;
  }

  /** How many bytes decide the next thing: the header if it must be refused, else the frame. */
  function DecidedAt(limit: nat, p: Partial, b: Bytes): nat
    requires !ParseHeader(b).Incomplete?
  {
    var h := ParseHeader(b);
    if h.Malformed? || !Legal(limit, p, h) then HeaderBytes(b[1]) else h.bytes + h.payload
  }

  lemma QuietBefore(limit: nat, r: Receiver, b: Bytes, k: nat)
    requires k < |b| && !ParseHeader(b).Incomplete? && k < DecidedAt(limit, r.partial, b)
    ensures Quiet(limit, r.(buffer := b[..k]))
  {
    var prefix := b[..k];
    if !ParseHeader(prefix).Incomplete? {
      HeaderPrefix(prefix, b[k..]);
      assert prefix + b[k..] == b;
    }
  }

  lemma QuietIncomplete(limit: nat, r: Receiver, b: Bytes, k: nat)
    requires k <= |b| && ParseHeader(b).Incomplete?
    ensures Quiet(limit, r.(buffer := b[..k]))
  {
  }

  /** From an empty buffer, the parser delivers what the reference delivers. */
  lemma {:induction false} FramesFollowReference(limit: nat, accepts: Bytes -> bool, r: Receiver, b: Bytes)
    requires r.open && r.buffer == []
    ensures var o := Feed(limit, accepts, r, b);
      (o.events, o.failed) == DecodeFrames(limit, r.partial, b)
    decreases |b|
  {
    var h := ParseHeader(b);
    if b == [] {
    } else if h.Incomplete? {
      forall k | 0 < k <= |b| ensures Quiet(limit, r.(buffer := r.buffer + b[..k])) {
        QuietIncomplete(limit, r, b, k);
        assert r.buffer + b[..k] == b[..k];
      }
      assert b[..|b|] == b;
      Collect(limit, accepts, r, b);
    } else {
      var m := DecidedAt(limit, r.partial, b);
      if |b| < m {
        forall k | 0 < k <= |b| ensures Quiet(limit, r.(buffer := r.buffer + b[..k])) {
          assert r.buffer + b[..k] == b[..k];
          if k < |b| {
            QuietBefore(limit, r, b, k);
          } else {
            assert b[..k] == b;
          }
        }
        assert b[..|b|] == b;
        Collect(limit, accepts, r, b);
      } else {
        DecidedFrame(limit, accepts, r, b, m);
      }
    }
  }

  lemma {:induction false} DecidedFrame(limit: nat, accepts: Bytes -> bool, r: Receiver, b: Bytes, m: nat)
    requires r.open && r.buffer == [] && !ParseHeader(b).Incomplete?
    requires m == DecidedAt(limit, r.partial, b) <= |b|
    ensures var o := Feed(limit, accepts, r, b);
      (o.events, o.failed) == DecodeFrames(limit, r.partial, b)
    decreases |b|, 0
  {
    var h := ParseHeader(b);
    assert m >= 2;
    forall k | 0 < k < m ensures Quiet(limit, r.(buffer := r.buffer + b[..m][..k])) {
      QuietBefore(limit, r, b, k);
      assert r.buffer + b[..m][..k] == b[..k];
    }
    Collect(limit, accepts, r, b[..m]);
    assert r.buffer + b[..m] == b[..m];
    HeaderPrefix(b[..m], b[m..]);
    assert b[..m] + b[m..] == b;
    FeedAppend(limit, accepts, r, b[..m], b[m..]);
    var settled := Settle(limit, r.(buffer := b[..m]));
    if !h.Malformed? && Legal(limit, r.partial, h) {
      assert b[..m][h.bytes..] == b[h.bytes..m];
      FramesFollowReference(limit, accepts, settled.state, b[m..]);
    }
  }

  // ----- The handshake response -----------------------------------------------------------------

  lemma {:induction false} CollectResponse(limit: nat, accepts: Bytes -> bool, b: Bytes, m: nat)
    requires m <= |b| && m <= limit && forall i :: 0 < i <= m ==> !EndsHeaders(b[..i])
    ensures Feed(limit, accepts, FRESH, b[..m]) == Outcome(FRESH.(buffer := b[..m]), [], false)
    decreases m
  {
    if m > 0 {
      CollectResponse(limit, accepts, b, m - 1);
      var last := [b[m - 1]];
      assert b[..m] == b[..m - 1] + last;
      FeedAppend(limit, accepts, FRESH, b[..m - 1], last);
      assert last[1..] == [];
      var held := FRESH.(buffer := b[..m - 1]);
      assert Take(limit, accepts, held, b[m - 1]) == Outcome(FRESH.(buffer := b[..m]), [], false);
    } else {
      assert b[..0] == [];
    }
  }

  /** What the byte that decides the handshake does. */
  lemma ResponseDecided(limit: nat, accepts: Bytes -> bool, b: Bytes, m: nat)
    requires m < |b| && m <= limit && forall i :: 0 < i <= m ==> !EndsHeaders(b[..i])
    requires m == limit || EndsHeaders(b[..m + 1])
    ensures var o := Take(limit, accepts, FRESH.(buffer := b[..m]), b[m]);
      Feed(limit, accepts, FRESH, b) == Then(o, Feed(limit, accepts, o.state, b[m + 1..]))
  {
    hide Take, EndsHeaders;
    CollectResponse(limit, accepts, b, m);
    assert b == b[..m] + b[m..];
    FeedAppend(limit, accepts, FRESH, b[..m], b[m..]);
    assert b[m..][1..] == b[m + 1..];
    var held := FRESH.(buffer := b[..m]);
    var rest := Feed(limit, accepts, held, b[m..]);
    assert rest.events == [] + rest.events;
  }

  /** Over every stream, the byte-wise parser delivers exactly what the whole-stream decoder of
      sections 5.2 and 5.4 of RFC 6455 delivers, up to and including the first failure. */
  lemma StreamFollowsReference(limit: nat, accepts: Bytes -> bool, b: Bytes)
    ensures var o := Feed(limit, accepts, FRESH, b);
      (o.events, o.failed) == DecodeStream(limit, accepts, b)
  {
    hide EndsHeaders, Settle, DecodeFrames, Feed, ResponseLength;
    var k := ResponseLength(b, 0);
    if k > limit {
      ResponseDecided(limit, accepts, b, limit);
    } else if !EndsHeaders(b[..k]) {
      CollectResponse(limit, accepts, b, k);
      assert b[..k] == b;
    } else {
      ResponseDecided(limit, accepts, b, k - 1);
      assert b[..k - 1] + [b[k - 1]] == b[..k];
      if accepts(b[..k]) {
        FramesFollowReference(limit, accepts, Receiver(true, [], NoPartial), b[k..]);
      }
    }
  }

  // ----- TCP splits -----------------------------------------------------------------------------

  function Joined(chunks: seq<Bytes>): Bytes {
    if chunks == [] then [] else chunks[0] + Joined(chunks[1..])
  }

  /** A connection that gets its bytes in chunks and stops at the first failure. */
  function FeedChunks(limit: nat, accepts: Bytes -> bool, r: Receiver, chunks: seq<Bytes>): Outcome<Receiver>
    decreases |chunks|
  {
    if chunks == [] then Outcome(r, [], false)
    else
      var first := Feed(limit, accepts, r, chunks[0]);
      Then(first, FeedChunks(limit, accepts, first.state, chunks[1..]))
  }

  lemma {:induction false} ChunksAreStream(limit: nat, accepts: Bytes -> bool, r: Receiver, chunks: seq<Bytes>)
    ensures FeedChunks(limit, accepts, r, chunks) == Feed(limit, accepts, r, Joined(chunks))
    decreases |chunks|
  {
    if chunks != [] {
      var first := Feed(limit, accepts, r, chunks[0]);
      ChunksAreStream(limit, accepts, first.state, chunks[1..]);
      FeedAppend(limit, accepts, r, chunks[0], Joined(chunks[1..]));
    }
  }

  /** However TCP cuts a stream into chunks, the same events come out up to the first failure: those
      of the whole-stream decoder. */
  lemma SplitsDoNotMatter(limit: nat, accepts: Bytes -> bool, chunks: seq<Bytes>)
    ensures var o := FeedChunks(limit, accepts, FRESH, chunks);
      (o.events, o.failed) == DecodeStream(limit, accepts, Joined(chunks))
  {
    ChunksAreStream(limit, accepts, FRESH, chunks);
    StreamFollowsReference(limit, accepts, Joined(chunks));
  }

  /** A ping, pong or close frame anywhere between frames, in particular inside a fragmented message,
      yields its own event and leaves everything after it as if it had not been there. */
  lemma ControlFramesTransparent(limit: nat, p: Partial, frame: Bytes, rest: Bytes)
    requires var h := ParseHeader(frame);
      h.Header? && h.opcode >= 8 && h.payload <= limit && |frame| == h.bytes + h.payload
    ensures var h := ParseHeader(frame); var (after, failed) := DecodeFrames(limit, p, rest);
      DecodeFrames(limit, p, frame + rest) == (Apply(p, h, frame[h.bytes..]).1 + after, failed)
  {
    var h := ParseHeader(frame);
    HeaderPrefix(frame, rest);
    var n := h.bytes + h.payload;
    assert (frame + rest)[n..] == rest;
    assert (frame + rest)[h.bytes..n] == frame[h.bytes..];
  }

  /** What holds between bytes: an undecided buffer and a message in progress within the limit. */
  predicate Settled(limit: nat, r: Receiver) {
    && SoFar(r.partial) <= limit
    && (!r.open ==> r.partial.NoPartial? && |r.buffer| <= limit)
    && (r.open ==> Quiet(limit, r))
  }

  lemma TakeSettles(limit: nat, accepts: Bytes -> bool, r: Receiver, b: byte)
    requires Settled(limit, r)
    ensures var o := Take(limit, accepts, r, b);
      SoFar(o.state.partial) <= limit && (!o.failed ==> Settled(limit, o.state))
  {
    var longer := r.buffer + [b];
    if r.open && !ParseHeader(r.buffer).Incomplete? {
      HeaderPrefix(r.buffer, [b]);
    }
  }

  /** A message in progress never exceeds the limit, so the remaining allowance is never negative. */
  lemma {:induction false} PartialWithinLimit(limit: nat, accepts: Bytes -> bool, r: Receiver, b: Bytes)
    requires Settled(limit, r)
    ensures var o := Feed(limit, accepts, r, b);
      SoFar(o.state.partial) <= limit && (!o.failed ==> Settled(limit, o.state))
    decreases |b|
  {
    if b != [] {
      TakeSettles(limit, accepts, r, b[0]);
      var first := Take(limit, accepts, r, b[0]);
      if !first.failed {
        PartialWithinLimit(limit, accepts, first.state, b[1..]);
      }
    }
  }
}
