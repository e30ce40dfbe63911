/** HTTP chunked transfer coding, section 7.1 of RFC 9112: the encoder used for requests and the
    incremental decoder used for responses. */
module HttpChunked {
  import opened Wrappers

  type Bytes = seq<byte>

  const CR: byte := 13
  const LF: byte := 10
  const ULONG_MAX: nat := 0xFFFF_FFFF

  // ----- Lines ----------------------------------------------------------------------------------

  /** Index of the first byte equal to `c`, or the length where there is none. */
  function Find(b: Bytes, c: byte): (i: nat)
    ensures i <= |b|
    ensures i < |b| ==> b[i] == c
    ensures forall k :: 0 <= k < i ==> b[k] != c
  {
    if b == [] || b[0] == c then 0 else 1 + Find(b[1..], c)
  }

  predicate HasLine(b: Bytes) {
    Find(b, LF) < |b|
  }

  function Line(b: Bytes): Bytes
    requires HasLine(b)
  {
    var line := b[..Find(b, LF)];
    if line != [] && line[|line| - 1] == CR then line[..|line| - 1] else line
  }

  function AfterLine(b: Bytes): (rest: Bytes)
    requires HasLine(b)
    ensures |rest| < |b|
  {
    b[Find(b, LF) + 1..]
  }

  lemma FindAppend(b: Bytes, c: byte, more: Bytes)
    requires Find(b, c) < |b|
    ensures Find(b + more, c) == Find(b, c)
  {
    var (i, j) := (Find(b, c), Find(b + more, c));
    assert (b + more)[i] == c;
    if j < i {
      assert (b + more)[j] == b[j];
    }
  }

  lemma LineAppend(b: Bytes, more: Bytes)
    requires HasLine(b)
    ensures HasLine(b + more) && Line(b + more) == Line(b) && AfterLine(b + more) == AfterLine(b) + more
  {
    FindAppend(b, LF, more);
    var i := Find(b, LF);
    assert (b + more)[..i] == b[..i];
  }

  // ----- Chunk sizes ----------------------------------------------------------------------------

  predicate IsHexDigit(c: byte) {
    48 <= c <= 57 || 97 <= c <= 102 || 65 <= c <= 70
  }

  function DigitValue(c: byte): nat
    requires IsHexDigit(c)
  {
    if c <= 57 then c - 48 else if c <= 70 then c - 55 else c - 87
  }

  predicate IsSpace(c: byte) {
    c == 32 || 9 <= c <= 13
  }

  /** Number of leading bytes that are hexadecimal digits. */
  function DigitRun(s: Bytes): (n: nat)
    ensures n <= |s| && forall i :: 0 <= i < n ==> IsHexDigit(s[i])
    ensures n < |s| ==> !IsHexDigit(s[n])
  {
    if s == [] || !IsHexDigit(s[0]) then 0 else 1 + DigitRun(s[1..])
  }

  function HexValue(s: Bytes): nat
    requires forall i :: 0 <= i < |s| ==> IsHexDigit(s[i])
  {
    if s == [] then 0 else HexValue(s[..|s| - 1]) * 16 + DigitValue(s[|s| - 1])
  }

  function SkipSpace(s: Bytes): Bytes {
    if s != [] && IsSpace(s[0]) then SkipSpace(s[1..]) else s
  }

  function TrimEnd(s: Bytes): Bytes {
    if s != [] && s[|s| - 1] in {32, 9, 13, 10} then TrimEnd(s[..|s| - 1]) else s
  }

  /** The C library's strtoul in base 16 on a NUL-terminated copy, with a 32-bit result: nothing where
      no digits were converted or something is left over. */
  function ParseHex(text: Bytes): Option<nat> {
    var s := SkipSpace(text);
    var negative := s != [] && s[0] == 45;
    var s := if s != [] && (s[0] == 45 || s[0] == 43) then s[1..] else s;
    var s := if |s| >= 2 && s[0] == 48 && (s[1] == 120 || s[1] == 88) then s[2..] else s;
    var n := DigitRun(s);
    if n == 0 || (n < |s| && s[n] != 0) then None
    else
      var value := HexValue(s[..n]);
      if value > ULONG_MAX then Some(ULONG_MAX)
      else if negative then Some((ULONG_MAX + 1 - value) % (ULONG_MAX + 1))
      else Some(value)
  }

  /** A chunk size line: extensions after a semicolon are ignored, anything unreadable counts as 0. */
  function ParseChunkSize(line: Bytes): nat {
    match ParseHex(TrimEnd(line[..Find(line, 59)]))
    case Some(n) => n
    case None => 0
  }

  // ----- Decoder --------------------------------------------------------------------------------

  type pos = n: nat | n > 0 witness 1

  datatype Phase = Size | Data(left: pos) | Trailer | Done

  /** Work through the bytes at hand: the phase and bytes left over, and the body bytes found. */
  function Process(phase: Phase, rx: Bytes): (Phase, Bytes, Bytes)
    decreases |rx|
  {
    if rx == [] then (phase, rx, [])
    else match phase
      case Done => (phase, rx, [])
      case Size =>
        if !HasLine(rx) then (phase, rx, [])
        else if Line(rx) == [] then Process(Size, AfterLine(rx))
        else
          var n := ParseChunkSize(Line(rx));
          Process(if n == 0 then Trailer else Data(n), AfterLine(rx))
      case Data(left) =>
        if |rx| < left then (Data(left - |rx|), [], rx)
        else
          var (phase', rx', body) := Process(Size, rx[left..]);
          (phase', rx', rx[..left] + body)
      case Trailer =>
        if !HasLine(rx) then (phase, rx, [])
        else if Line(rx) == [] then (Done, AfterLine(rx), [])
        else Process(Trailer, AfterLine(rx))
  }

  /** Bytes that come later are worked through as if they had been at hand from the start. */
  lemma {:induction false} ProcessAppend(phase: Phase, rx: Bytes, more: Bytes)
    ensures var (p, left, body) := Process(phase, rx); var (p', left', body') := Process(p, left + more);
      Process(phase, rx + more) == (p', left', body + body')
    decreases |rx|
  {
    hide HasLine, Line, AfterLine, ParseChunkSize, Find;
    var (p, left, body) := Process(phase, rx);
    var rest := Process(p, left + more);
    assert [] + rest.2 == rest.2;
    if rx == [] {
      assert rx + more == more;
    } else {
      match phase
      case Done =>
      case Size =>
        if HasLine(rx) {
          LineAppend(rx, more);
          var n := ParseChunkSize(Line(rx));
          ProcessAppend(if Line(rx) == [] then Size else if n == 0 then Trailer else Data(n), AfterLine(rx), more);
        }
      case Trailer =>
        if HasLine(rx) {
          LineAppend(rx, more);
          if Line(rx) == [] {
            assert Process(Done, left + more) == (Done, left + more, []);
          } else {
            ProcessAppend(Trailer, AfterLine(rx), more);
          }
        }
      case Data(n) =>
        if |rx| < n {
          assert [] + more == more;
          PartialData(n, rx, more);
        } else {
          ProcessAppend(Size, rx[n..], more);
          WholeData(n, rx, more);
        }
    }
  }

  /** A chunk whose data is all there, given what becomes of the bytes after it. */
  lemma WholeData(n: pos, rx: Bytes, more: Bytes)
    requires n <= |rx|
    requires var (p, left, body) := Process(Size, rx[n..]); var (p', left', body') := Process(p, left + more);
      Process(Size, rx[n..] + more) == (p', left', body + body')
    ensures var (p, left, body) := Process(Data(n), rx); var (p', left', body') := Process(p, left + more);
      Process(Data(n), rx + more) == (p', left', body + body')
  {
    DataStep(n, rx);
    DataStep(n, rx + more);
    SlicesAppend(rx, more, n);
    hide Process;
    var (p, left, body) := Process(Size, rx[n..]);
    Regroup(rx[..n], body, Process(p, left + more).2);
  }

  lemma SlicesAppend(a: Bytes, b: Bytes, n: nat)
    requires n <= |a|
    ensures (a + b)[n..] == a[n..] + b && (a + b)[..n] == a[..n]
  {
  }

  lemma Regroup(a: Bytes, b: Bytes, c: Bytes)
    ensures a + (b + c) == (a + b) + c
  {
  }

  lemma DataStep(n: pos, rx: Bytes)
    requires n <= |rx|
    ensures var (p, left, body) := Process(Size, rx[n..]); Process(Data(n), rx) == (p, left, rx[..n] + body)
  {
    hide HasLine, Line, AfterLine, ParseChunkSize, Find;
  }

  /** A chunk whose data arrives in two parts. */
  lemma PartialData(n: pos, rx: Bytes, more: Bytes)
    requires 0 < |rx| < n
    ensures var (p, left, body) := Process(Data(n - |rx|), more);
      Process(Data(n), rx + more) == (p, left, rx + body)
  {
    hide HasLine, Line, AfterLine, ParseChunkSize, Find;
    if |rx + more| < n {
      assert more == [] ==> rx + more == rx;
    } else {
      assert (rx + more)[n..] == more[n - |rx|..];
      assert (rx + more)[..n] == rx + more[..n - |rx|];
      var inner := Process(Size, more[n - |rx|..]);
      assert rx + (more[..n - |rx|] + inner.2) == (rx + more[..n - |rx|]) + inner.2;
    }
  }

  function Joined(pieces: seq<Bytes>): Bytes {
    if pieces == [] then [] else pieces[0] + Joined(pieces[1..])
  }

  /** A response body that arrives in TCP segments. */
  function ProcessSegments(phase: Phase, rx: Bytes, segments: seq<Bytes>): (Phase, Bytes, Bytes)
    decreases |segments|
  {
    if segments == [] then (phase, rx, [])
    else
      var (p, left, body) := Process(phase, rx + segments[0]);
      var (p', left', body') := ProcessSegments(p, left, segments[1..]);
      (p', left', body + body')
  }

  /** However a stream is cut into segments, the same body comes out and the decoder ends in the same
      state. */
  lemma {:induction false} SplitsDoNotMatter(phase: Phase, rx: Bytes, segments: seq<Bytes>)
    requires Process(phase, rx) == (phase, rx, [])
    ensures ProcessSegments(phase, rx, segments) == Process(phase, rx + Joined(segments))
    decreases |segments|
  {
    hide Process;
    if segments == [] {
      assert rx + [] == rx;
    } else {
      var (p, left, body) := Process(phase, rx + segments[0]);
      ProcessAppend(phase, rx + segments[0], Joined(segments[1..]));
      assert rx + Joined(segments) == (rx + segments[0]) + Joined(segments[1..]);
      ProcessStops(phase, rx + segments[0]);
      SplitsDoNotMatter(p, left, segments[1..]);
    }
  }

  /** What is left over yields nothing by itself. */
  lemma {:induction false} ProcessStops(phase: Phase, rx: Bytes)
    ensures var (p, left, body) := Process(phase, rx); Process(p, left) == (p, left, [])
    decreases |rx|
  {
    hide HasLine, Line, AfterLine, ParseChunkSize, Find;
    if rx != [] {
      match phase
      case Size =>
        if HasLine(rx) {
          var n := ParseChunkSize(Line(rx));
          ProcessStops(if Line(rx) == [] then Size else if n == 0 then Trailer else Data(n), AfterLine(rx));
        }
      case Trailer =>
        if HasLine(rx) && Line(rx) != [] {
          ProcessStops(Trailer, AfterLine(rx));
        }
      case Data(n) =>
        if |rx| >= n {
          ProcessStops(Size, rx[n..]);
        }
      case Done =>
    }
  }

  // ----- Encoder --------------------------------------------------------------------------------

  function HexDigit(d: nat): (c: byte)
    requires d < 16
    ensures IsHexDigit(c) && DigitValue(c) == d
  {
    if d < 10 then 48 + d else 87 + d
  }

  /** Lower-case hexadecimal digits of a positive number, as an output stream prints them. */
  function Hex(n: nat): (s: Bytes)
    requires n > 0
    ensures s != [] && s[0] != 48
    ensures forall i :: 0 <= i < |s| ==> IsHexDigit(s[i]) && s[i] <= 102
  {
    if n < 16 then [HexDigit(n)] else Hex(n / 16) + [HexDigit(n % 16)]
  }

  const END_CHUNK: Bytes := [48, CR, LF, CR, LF]

  function Chunk(data: Bytes): Bytes
    requires data != []
  {
    Hex(|data|) + [CR, LF] + data + [CR, LF]
  }

  lemma {:induction false} HexValueOfHex(n: nat)
    requires n > 0
    ensures HexValue(Hex(n)) == n
    decreases n
  {
    if n < 16 {
      assert [HexDigit(n)][..0] == [];
    } else {
      HexValueOfHex(n / 16);
      assert Hex(n)[..|Hex(n)| - 1] == Hex(n / 16);
    }
  }

  lemma {:induction false} DigitRunOfDigits(s: Bytes)
    requires forall i :: 0 <= i < |s| ==> IsHexDigit(s[i])
    ensures DigitRun(s) == |s|
  {
  }

  lemma NothingToTrim(s: Bytes)
    requires s != [] && forall i :: 0 <= i < |s| ==> IsHexDigit(s[i])
    ensures TrimEnd(s) == s && SkipSpace(s) == s && s[..Find(s, 59)] == s
  {
    assert IsHexDigit(s[0]) && IsHexDigit(s[|s| - 1]);
    assert Find(s, 59) == |s|;
  }

  /** A printed size is read back. */
  lemma SizeRoundTrip(n: nat)
    requires 0 < n <= ULONG_MAX
    ensures ParseChunkSize(Hex(n)) == n
  {
    var s := Hex(n);
    NothingToTrim(s);
    DigitRunOfDigits(s);
    HexValueOfHex(n);
    assert s[..|s|] == s;
  }

  /** The line that starts some bytes, when it is spelled out. */
  lemma LineIs(line: Bytes, rest: Bytes)
    requires forall i :: 0 <= i < |line| ==> line[i] != LF && line[i] != CR
    ensures var b := line + [CR, LF] + rest;
      HasLine(b) && Line(b) == line && AfterLine(b) == rest
  {
    var b := line + [CR, LF] + rest;
    var i := Find(b, LF);
    assert b[|line| + 1] == LF;
    assert forall k :: 0 <= k < |line| ==> b[k] == line[k];
    assert b[|line|] == CR;
    assert i == |line| + 1;
    assert b[..i] == line + [CR];
  }

  /** One chunk decodes to its data. */
  lemma ChunkDecodes(data: Bytes, rest: Bytes)
    requires 0 < |data| <= ULONG_MAX
    ensures var (p, left, body) := Process(Size, rest);
      Process(Size, Chunk(data) + rest) == (p, left, data + body)
  {
    hide HasLine, Line, AfterLine, ParseChunkSize, Hex;
    var size := Hex(|data|);
    var after := data + [CR, LF] + rest;
    var b := Chunk(data) + rest;
    assert b == size + [CR, LF] + after;
    LineIs(size, after);
    SizeRoundTrip(|data|);
    assert Process(Size, b) == Process(Data(|data|), after);
    var tail := [] + [CR, LF] + rest;
    assert after[..|data|] == data && after[|data|..] == tail;
    LineIs([], rest);
    assert Process(Size, tail) == Process(Size, rest);
  }

  lemma EndDecodes(rest: Bytes)
    ensures Process(Size, END_CHUNK + rest) == (Done, rest, [])
  {
    var zero: Bytes := [48];
    var after := [CR, LF] + rest;
    assert END_CHUNK + rest == zero + [CR, LF] + after;
    LineIs(zero, after);
    NothingToTrim(zero);
    DigitRunOfDigits(zero);
    assert zero[..1] == zero && zero[..0] == [];
    assert HexValue(zero) == 0;
    assert after == [] + [CR, LF] + rest;
    LineIs([], rest);
  }

  function Encoded(buffers: seq<Bytes>): Bytes
    requires forall i :: 0 <= i < |buffers| ==> buffers[i] != []
  {
    if buffers == [] then END_CHUNK else Chunk(buffers[0]) + Encoded(buffers[1..])
  }

  lemma {:induction false} EncodedDecodes(buffers: seq<Bytes>)
    requires forall i :: 0 <= i < |buffers| ==> 0 < |buffers[i]| <= ULONG_MAX
    ensures Process(Size, Encoded(buffers)) == (Done, [], Joined(buffers))
    decreases |buffers|
  {
    if buffers == [] {
      EndDecodes([]);
      assert END_CHUNK + [] == END_CHUNK;
    } else {
      EncodedDecodes(buffers[1..]);
      ChunkDecodes(buffers[0], Encoded(buffers[1..]));
    }
  }

  /** Round trip: any list of non-empty buffers, sent chunk by chunk and ended by the end chunk, comes
      out of the decoder as their concatenation, completely, however TCP cuts it. */
  lemma ChunkedRoundTrip(buffers: seq<Bytes>, segments: seq<Bytes>)
    requires forall i :: 0 <= i < |buffers| ==> 0 < |buffers[i]| <= ULONG_MAX
    requires Joined(segments) == Encoded(buffers)
    ensures ProcessSegments(Size, [], segments) == (Done, [], Joined(buffers))
  {
    SplitsDoNotMatter(Size, [], segments);
    assert [] + Joined(segments) == Encoded(buffers);
    EncodedDecodes(buffers);
  }

  // ----- The client object ----------------------------------------------------------------------

  datatype ParseState = ChunkSize | ChunkData | ChunkTrailer | Complete

  class HttpClient {
    var parseState: ParseState
    var rxBuffer: Bytes
    var chunkSize: nat
    var chunkReceived: nat
    var body: Bytes
    var eof: bool

    ghost predicate Valid()
      reads this
    {
      (parseState == ChunkData ==> chunkReceived < chunkSize) && (parseState == Complete <==> eof)
    }

    ghost function Now(): Phase
      requires Valid()
      reads this
    {
      match parseState
      case ChunkSize => Size
      case ChunkData => Data(chunkSize - chunkReceived)
      case ChunkTrailer => Trailer
      case Complete => Done
    }

    /** A client whose response headers announced a chunked body. */
    constructor ()
      ensures Valid() && Now() == Size && rxBuffer == [] && body == []
    {
      parseState, rxBuffer, chunkSize, chunkReceived, body, eof := ChunkSize, [], 0, 0, [], false;
    }

    method GetNextLine() returns (line: Bytes)
      requires HasLine(rxBuffer)
      modifies this`rxBuffer
      ensures line == Line(old(rxBuffer)) && rxBuffer == AfterLine(old(rxBuffer))
    {
      var pos := Find(rxBuffer, LF);
      line := rxBuffer[..pos];
      rxBuffer := rxBuffer[pos + 1..];
      if line != [] && line[|line| - 1] == CR {
        line := line[..|line| - 1];
      }
    }

    /** The size line of a chunk; blank lines before it are skipped. */
    method ReadChunkSize() returns (again: bool)
      requires Valid() && parseState == ChunkSize && rxBuffer != []
      modifies this`rxBuffer, this`parseState, this`chunkSize, this`chunkReceived
      ensures Valid() && |rxBuffer| <= |old(rxBuffer)|
      ensures Process(Size, old(rxBuffer)) == Process(Now(), rxBuffer)
      ensures again ==> |rxBuffer| < |old(rxBuffer)|
      ensures !again ==> Process(Now(), rxBuffer) == (Now(), rxBuffer, [])
    {
      hide Line, ParseChunkSize;
      if !HasLine(rxBuffer) {
        return false;
      }
      var line := GetNextLine();
      while line == []
        invariant Valid() && parseState == ChunkSize && |rxBuffer| < |old(rxBuffer)|
        invariant Process(Size, old(rxBuffer))
               == if line == [] then Process(Size, rxBuffer)
                  else Process(if ParseChunkSize(line) == 0 then Trailer else Data(ParseChunkSize(line)), rxBuffer)
        decreases |rxBuffer|, line == []
      {
        if !HasLine(rxBuffer) {
          return false;
        }
        line := GetNextLine();
      }
      chunkSize := ParseChunkSize(line);
      chunkReceived := 0;
      parseState := if chunkSize == 0 then ChunkTrailer else ChunkData;
      return true;
    }

    /** Take chunk data, and the line end after a whole chunk if it is at hand. */
    method ReadChunkData() returns (taken: Bytes)
      requires Valid() && parseState == ChunkData && rxBuffer != []
      modifies this`rxBuffer, this`parseState, this`chunkReceived, this`body
      ensures Valid() && |rxBuffer| < |old(rxBuffer)| && body == old(body) + taken
      ensures var (p, left, more) := Process(Now(), rxBuffer);
        Process(old(Now()), old(rxBuffer)) == (p, left, taken + more)
    {
      hide HasLine, Line, AfterLine, ParseChunkSize, Find;
      ghost var rx := rxBuffer;
      var left := chunkSize - chunkReceived;
      var available := if |rxBuffer| < left then |rxBuffer| else left;
      taken := rxBuffer[..available];
      body := body + taken;
      rxBuffer := rxBuffer[available..];
      chunkReceived := chunkReceived + available;
      if chunkReceived == chunkSize {
        parseState := ChunkSize;
        if |rxBuffer| >= 2 && rxBuffer[..2] == [CR, LF] {
          LineIs([], rxBuffer[2..]);
          assert rxBuffer == [] + [CR, LF] + rxBuffer[2..];
          rxBuffer := rxBuffer[2..];
        }
      } else {
        assert taken == rx && rxBuffer == [];
      }
      assert taken + Process(Now(), rxBuffer).2 == Process(Data(left), rx).2;
    }

    /** A trailer line, or the blank line that ends the body. */
    method ReadTrailer() returns (again: bool)
      requires Valid() && parseState == ChunkTrailer && rxBuffer != []
      modifies this`rxBuffer, this`parseState, this`eof
      ensures Valid() && Process(Trailer, old(rxBuffer)) == Process(Now(), rxBuffer)
      ensures again ==> |rxBuffer| < |old(rxBuffer)|
      ensures !again ==> Process(Now(), rxBuffer) == (Now(), rxBuffer, [])
    {
      hide Line;
      if !HasLine(rxBuffer) {
        return false;
      }
      var line := GetNextLine();
      if line == [] {
        parseState := Complete;
        eof := true;
      }
      return true;
    }

    /** Work through what was received, as far as it goes. */
    method ProcessReceivedData()
      requires Valid()
      modifies this
      ensures Valid()
      ensures var (p, left, found) := Process(old(Now()), old(rxBuffer));
        Now() == p && rxBuffer == left && body == old(body) + found
    {
      hide HasLine, Line, AfterLine, ParseChunkSize, Find;
      ghost var found: Bytes := [];
      ghost var whole := Process(Now(), rxBuffer);
      assert body == old(body) + found && whole.2 == found + whole.2;
      while rxBuffer != [] && parseState != Complete
        invariant Valid() && body == old(body) + found
        invariant var (p, left, more) := Process(Now(), rxBuffer); whole == (p, left, found + more)
        decreases |rxBuffer|
      {
        var again := true;
        match parseState {
          case ChunkSize => again := ReadChunkSize();
          case ChunkTrailer => again := ReadTrailer();
          case ChunkData =>
            var taken := ReadChunkData();
            ghost var more := Process(Now(), rxBuffer).2;
            assert found + (taken + more) == (found + taken) + more;
            found := found + taken;
        }
        if !again {
          assert found + [] == found;
          return;
        }
      }
      assert found + [] == found;
    }

    /** A segment arrives from TCP. */
    method OnTcpData(segment: Bytes)
      requires Valid()
      modifies this
      ensures Valid()
      ensures var (p, left, found) := Process(old(Now()), old(rxBuffer) + segment);
        Now() == p && rxBuffer == left && body == old(body) + found
    {
      hide Process;
      rxBuffer := rxBuffer + segment;
      ProcessReceivedData();
    }

    /** What a request writes for a buffer: in chunked coding its chunk, or the end chunk for an empty
        one; otherwise the bytes themselves. `answer` is what the transport returns if asked to send. */
    static method Write(connected: bool, chunked: bool, buffer: Bytes, answer: int) returns (result: int, sent: Option<Bytes>)
      requires |buffer| <= ULONG_MAX
      ensures !connected ==> result == -1 && sent == None
      ensures connected && chunked ==>
        result == answer && sent == Some(if buffer == [] then END_CHUNK else Chunk(buffer))
      ensures connected && !chunked ==>
        if buffer == [] then result == 0 && sent == None else result == answer && sent == Some(buffer)
    {
      if !connected {
        return -1, None;
      }
      if chunked {
        if buffer == [] {
          return answer, Some([48, CR, LF, CR, LF]);
        }
        return answer, Some(Hex(|buffer|) + [CR, LF] + buffer + [CR, LF]);
      }
      if buffer == [] {
        return 0, None;
      }
      return answer, Some(buffer);
    }
  }
}
