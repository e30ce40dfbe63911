/** Which streams the chunked decoder takes for complete bodies, and that those of section 7.1 of
    RFC 9112 with extensions and trailers are among them. */
module HttpBodies {
  import opened Wrappers
  import opened HttpChunked

  // ----- Lines as they are sent -----------------------------------------------------------------

  /** A line as sent, without its line feed. */
  predicate Raw(line: Bytes) {
    forall i :: 0 <= i < |line| ==> line[i] != LF
  }

  /** The line as read: one carriage return at its end is dropped. */
  function Content(raw: Bytes): Bytes {
    if raw != [] && raw[|raw| - 1] == CR then raw[..|raw| - 1] else raw
  }

  lemma RawLine(raw: Bytes, rest: Bytes)
    requires Raw(raw)
    ensures var b := raw + [LF] + rest; HasLine(b) && Line(b) == Content(raw) && AfterLine(b) == rest
  {
    var b := raw + [LF] + rest;
    assert b[|raw|] == LF && forall k :: 0 <= k < |raw| ==> b[k] == raw[k];
    assert Find(b, LF) == |raw|;
    assert b[..|raw|] == raw && b[|raw| + 1..] == rest;
  }

  lemma LineRaw(b: Bytes) returns (raw: Bytes)
    requires HasLine(b)
    ensures Raw(raw) && b == raw + [LF] + AfterLine(b) && Line(b) == Content(raw)
  {
    raw := b[..Find(b, LF)];
  }

  // ----- Complete streams -----------------------------------------------------------------------

  /** What may come before the last chunk: a blank line, or a size line and as much data. */
  datatype Piece = BlankLine(raw: Bytes) | ChunkOf(raw: Bytes, data: Bytes)

  predicate Proper(p: Piece) {
    && Raw(p.raw)
    && match p
       case BlankLine(raw) => Content(raw) == []
       case ChunkOf(raw, data) => Content(raw) != [] && ParseChunkSize(Content(raw)) == |data| > 0
  }

  function Text(p: Piece): Bytes {
    p.raw + [LF] + if p.ChunkOf? then p.data else []
  }

  function Render(pieces: seq<Piece>): Bytes {
    if pieces == [] then [] else Text(pieces[0]) + Render(pieces[1..])
  }

  function Contents(pieces: seq<Piece>): Bytes {
    if pieces == [] then [] else (if pieces[0].ChunkOf? then pieces[0].data else []) + Contents(pieces[1..])
  }

  /** A size line that counts as zero, trailer lines, and a blank line. */
  datatype Ending = Ending(last: Bytes, trailers: seq<Bytes>, blank: Bytes)

  predicate ProperEnding(e: Ending) {
    && Raw(e.last) && Content(e.last) != [] && ParseChunkSize(Content(e.last)) == 0
    && (forall i :: 0 <= i < |e.trailers| ==> Raw(e.trailers[i]) && Content(e.trailers[i]) != [])
    && Raw(e.blank) && Content(e.blank) == []
  }

  function Lines(raws: seq<Bytes>): Bytes {
    if raws == [] then [] else raws[0] + [LF] + Lines(raws[1..])
  }

  function RenderEnding(e: Ending): Bytes {
    e.last + [LF] + (Lines(e.trailers) + (e.blank + [LF]))
  }

  lemma {:induction false} PiecesDecode(pieces: seq<Piece>, rest: Bytes)
    requires forall p <- pieces :: Proper(p)
    ensures var (phase, left, body) := Process(Size, rest);
      Process(Size, Render(pieces) + rest) == (phase, left, Contents(pieces) + body)
    decreases |pieces|
  {
    hide ParseChunkSize, HasLine, Line, AfterLine, Content, Raw;
    var body := Process(Size, rest).2;
    if pieces == [] {
      assert [] + rest == rest && [] + body == body;
    } else {
      PiecesDecode(pieces[1..], rest);
      PieceDecodes(pieces[0], Render(pieces[1..]) + rest);
      assert Render(pieces) + rest == Text(pieces[0]) + (Render(pieces[1..]) + rest);
      var data := if pieces[0].ChunkOf? then pieces[0].data else [];
      assert data + (Contents(pieces[1..]) + body) == Contents(pieces) + body;
    }
  }

  lemma PieceDecodes(p: Piece, rest: Bytes)
    requires Proper(p)
    ensures var (phase, left, body) := Process(Size, rest);
      Process(Size, Text(p) + rest) == (phase, left, (if p.ChunkOf? then p.data else []) + body)
  {
    hide ParseChunkSize, HasLine, Line, AfterLine, Content, Raw;
    var body := Process(Size, rest).2;
    match p
    case BlankLine(raw) =>
      RawLine(raw, rest);
      assert Text(p) + rest == raw + [LF] + rest && [] + body == body;
    case ChunkOf(raw, data) =>
      RawLine(raw, data + rest);
      assert Text(p) + rest == raw + [LF] + (data + rest);
      assert (data + rest)[..|data|] == data && (data + rest)[|data|..] == rest;
  }

  lemma {:induction false} TrailersDecode(trailers: seq<Bytes>, blank: Bytes, left: Bytes)
    requires forall i :: 0 <= i < |trailers| ==> Raw(trailers[i]) && Content(trailers[i]) != []
    requires Raw(blank) && Content(blank) == []
    ensures Process(Trailer, Lines(trailers) + (blank + [LF]) + left) == (Done, left, [])
    decreases |trailers|
  {
    hide HasLine, Line, AfterLine, Content, Raw;
    if trailers == [] {
      RawLine(blank, left);
      assert Lines(trailers) + (blank + [LF]) + left == blank + [LF] + left;
    } else {
      var rest := Lines(trailers[1..]) + (blank + [LF]) + left;
      TrailersDecode(trailers[1..], blank, left);
      RawLine(trailers[0], rest);
      assert Lines(trailers) + (blank + [LF]) + left == trailers[0] + [LF] + rest;
    }
  }

  lemma EndingDecodes(e: Ending, left: Bytes)
    requires ProperEnding(e)
    ensures Process(Size, RenderEnding(e) + left) == (Done, left, [])
  {
    hide ParseChunkSize, HasLine, Line, AfterLine, Content, Raw;
    var rest := Lines(e.trailers) + (e.blank + [LF]) + left;
    RawLine(e.last, rest);
    TrailersDecode(e.trailers, e.blank, left);
    assert RenderEnding(e) + left == e.last + [LF] + rest;
  }

  /** What a stream that completes is made of. */
  lemma {:induction false} Decompose(b: Bytes) returns (pieces: seq<Piece>, e: Ending)
    requires Process(Size, b).0.Done?
    ensures (forall p <- pieces :: Proper(p)) && ProperEnding(e)
    ensures b == Render(pieces) + RenderEnding(e) + Process(Size, b).1
    ensures Process(Size, b).2 == Contents(pieces)
    decreases |b|
  {
    hide ParseChunkSize, HasLine, Line, AfterLine, Content, Raw;
    var raw := LineRaw(b);
    var after := AfterLine(b);
    var n := ParseChunkSize(Line(b));
    var left := Process(Size, b).1;
    if Line(b) != [] && n == 0 {
      var trailers, blank := DecomposeTrailers(after);
      pieces, e := [], Ending(raw, trailers, blank);
      EndingOf(e, left);
    } else {
      var data := if Line(b) == [] then [] else after[..n];
      var rest := if Line(b) == [] then after else after[n..];
      var piece := if Line(b) == [] then BlankLine(raw) else ChunkOf(raw, data);
      assert data + rest == after;
      var more;
      more, e := Decompose(rest);
      pieces := [piece] + more;
      Joins(raw + [LF], data, rest);
      assert b == Text(piece) + rest;
      hide Process, RenderEnding, Render, Contents, Text;
      MorePieces(piece, more, RenderEnding(e), left);
    }
  }

  lemma Joins(a: Bytes, b: Bytes, c: Bytes)
    ensures a + (b + c) == (a + b) + c && a + [] == a
  {
  }

  lemma EndingOf(e: Ending, left: Bytes)
    ensures Render([]) + RenderEnding(e) + left == e.last + [LF] + (Lines(e.trailers) + (e.blank + [LF]) + left)
  {
  }

  lemma MorePieces(piece: Piece, more: seq<Piece>, ending: Bytes, left: Bytes)
    ensures Render([piece] + more) + ending + left == Text(piece) + (Render(more) + ending + left)
    ensures Contents([piece] + more) == (if piece.ChunkOf? then piece.data else []) + Contents(more)
    ensures (forall p <- more :: Proper(p)) && Proper(piece) ==> forall p <- [piece] + more :: Proper(p)
  {
    hide Proper, Text;
    assert ([piece] + more)[1..] == more;
  }

  lemma {:induction false} DecomposeTrailers(b: Bytes) returns (trailers: seq<Bytes>, blank: Bytes)
    requires Process(Trailer, b).0.Done?
    ensures forall i :: 0 <= i < |trailers| ==> Raw(trailers[i]) && Content(trailers[i]) != []
    ensures Raw(blank) && Content(blank) == [] && Process(Trailer, b).2 == []
    ensures b == Lines(trailers) + (blank + [LF]) + Process(Trailer, b).1
    decreases |b|
  {
    hide HasLine, Line, AfterLine, Content, Raw;
    var raw := LineRaw(b);
    var left := Process(Trailer, b).1;
    if Line(b) == [] {
      trailers, blank := [], raw;
      assert Lines(trailers) + (blank + [LF]) + left == raw + [LF] + left;
    } else {
      var more;
      more, blank := DecomposeTrailers(AfterLine(b));
      trailers := [raw] + more;
      assert trailers[1..] == more;
      assert Lines(trailers) + (blank + [LF]) + left == raw + [LF] + (Lines(more) + (blank + [LF]) + left);
    }
  }

  /** The decoder takes a stream for complete, with a given body and given bytes left over, if and
      only if the stream is such pieces and such an ending, followed by those bytes. A size line
      counts as an ending when it is unreadable, as well as when it says zero. */
  lemma CompleteIff(b: Bytes, left: Bytes, body: Bytes)
    ensures Process(Size, b) == (Done, left, body)
       <==> exists pieces, e :: (forall p <- pieces :: Proper(p)) && ProperEnding(e)
              && b == Render(pieces) + RenderEnding(e) + left && body == Contents(pieces)
  {
    hide Process, Proper, ProperEnding, Render, RenderEnding, Contents;
    if Process(Size, b) == (Done, left, body) {
      var pieces, e := Decompose(b);
      assert (forall p <- pieces :: Proper(p)) && ProperEnding(e);
    }
    forall pieces, e | (forall p <- pieces :: Proper(p)) && ProperEnding(e)
                       && b == Render(pieces) + RenderEnding(e) + left
      ensures Process(Size, b) == (Done, left, Contents(pieces))
    {
      PiecesDecode(pieces, RenderEnding(e) + left);
      EndingDecodes(e, left);
      assert Render(pieces) + RenderEnding(e) + left == Render(pieces) + (RenderEnding(e) + left);
      assert Contents(pieces) + [] == Contents(pieces);
    }
  }

  /** So a stream whose first size line is "zz" completes with an empty body. */
  lemma UnreadableSizeCompletes()
    ensures Process(Size, [122, 122, CR, LF, CR, LF]) == (Done, [], [])
  {
    hide ParseChunkSize, Process;
    var e := Ending([122, 122, CR], [], [CR]);
    assert Content(e.last) == [122, 122] && Content(e.blank) == [];
    assert Lines([]) == [];
    Unreadable();
    EndingDecodes(e, []);
    assert RenderEnding(e) + [] == [122, 122, CR, LF, CR, LF];
  }

  lemma Unreadable()
    ensures ParseChunkSize([122, 122]) == 0
  {
    var zz: Bytes := [122, 122];
    assert Find(zz, 59) == 2 && zz[..2] == zz;
    assert DigitRun(zz) == 0;
  }

  // ----- Bodies of section 7.1 ------------------------------------------------------------------

  /** Chunk extensions: blanks, a semicolon, and anything on the line. */
  datatype Extension = NoExtension | Extension(blanks: Bytes, more: Bytes)

  predicate OnOneLine(b: Bytes) {
    forall i :: 0 <= i < |b| ==> b[i] != CR && b[i] != LF
  }

  predicate Digits(b: Bytes) {
    b != [] && forall i :: 0 <= i < |b| ==> IsHexDigit(b[i])
  }

  predicate GoodExtension(x: Extension) {
    x.Extension? ==> OnOneLine(x.more) && forall i :: 0 <= i < |x.blanks| ==> x.blanks[i] in {32, 9}
  }

  function SizeLine(digits: Bytes, x: Extension): Bytes {
    digits + match x case NoExtension => [] case Extension(blanks, more) => blanks + [59] + more
  }

  datatype SizedChunk = SizedChunk(digits: Bytes, extension: Extension, data: Bytes)

  predicate GoodChunk(c: SizedChunk) {
    Digits(c.digits) && GoodExtension(c.extension) && HexValue(c.digits) == |c.data| && 0 < |c.data| <= ULONG_MAX
  }

  datatype Body = Body(chunks: seq<SizedChunk>, zeros: Bytes, extension: Extension, trailers: seq<Bytes>)

  predicate GoodBody(b: Body) {
    && (forall c <- b.chunks :: GoodChunk(c))
    && Digits(b.zeros) && HexValue(b.zeros) == 0 && GoodExtension(b.extension)
    && forall t <- b.trailers :: t != [] && OnOneLine(t)
  }

  function ChunkText(c: SizedChunk): Bytes {
    SizeLine(c.digits, c.extension) + [CR, LF] + c.data + [CR, LF]
  }

  function ChunksText(chunks: seq<SizedChunk>): Bytes {
    if chunks == [] then [] else ChunkText(chunks[0]) + ChunksText(chunks[1..])
  }

  function TrailersText(trailers: seq<Bytes>): Bytes {
    if trailers == [] then [] else trailers[0] + [CR, LF] + TrailersText(trailers[1..])
  }

  function BodyText(b: Body): Bytes {
    ChunksText(b.chunks) + (SizeLine(b.zeros, b.extension) + [CR, LF] + (TrailersText(b.trailers) + [CR, LF]))
  }

  function DataOf(chunks: seq<SizedChunk>): Bytes {
    if chunks == [] then [] else chunks[0].data + DataOf(chunks[1..])
  }

  lemma {:induction false} TrimBlanks(digits: Bytes, blanks: Bytes)
    requires Digits(digits) && forall i :: 0 <= i < |blanks| ==> blanks[i] in {32, 9}
    ensures TrimEnd(digits + blanks) == digits
    decreases |blanks|
  {
    var s := digits + blanks;
    if blanks == [] {
      assert s == digits && IsHexDigit(s[|s| - 1]);
    } else {
      assert s[..|s| - 1] == digits + blanks[..|blanks| - 1];
      TrimBlanks(digits, blanks[..|blanks| - 1]);
    }
  }

  /** A well-formed size line is read as the number its digits write. */
  lemma SizeLineReads(digits: Bytes, x: Extension)
    requires Digits(digits) && GoodExtension(x) && HexValue(digits) <= ULONG_MAX
    ensures ParseChunkSize(SizeLine(digits, x)) == HexValue(digits)
  {
    var line := SizeLine(digits, x);
    var blanks := if x.Extension? then x.blanks else [];
    var head := digits + blanks;
    assert forall i :: 0 <= i < |head| ==> head[i] == line[i] && head[i] != 59;
    assert x.Extension? ==> line[|head|] == 59;
    assert Find(line, 59) == |head| && line[..|head|] == head;
    TrimBlanks(digits, blanks);
    DigitsRead(digits);
    hide ParseHex, TrimEnd, HexValue;
  }

  lemma DigitsRead(digits: Bytes)
    requires Digits(digits) && HexValue(digits) <= ULONG_MAX
    ensures ParseHex(digits) == Some(HexValue(digits))
  {
    DigitRunOfDigits(digits);
    assert IsHexDigit(digits[0]) && SkipSpace(digits) == digits;
    assert |digits| >= 2 ==> IsHexDigit(digits[1]);
    assert digits[..|digits|] == digits;
  }

  lemma SizeLineRaw(digits: Bytes, x: Extension)
    requires Digits(digits) && GoodExtension(x)
    ensures var raw := SizeLine(digits, x) + [CR]; Raw(raw) && Content(raw) == SizeLine(digits, x) != []
  {
    var line := SizeLine(digits, x);
    assert forall i :: 0 <= i < |digits| ==> IsHexDigit(digits[i]);
    assert (line + [CR])[..|line|] == line;
  }

  /** The pieces of the chunks of a well-formed body: each chunk is followed by a blank line. */
  lemma {:induction false} ChunksArePieces(chunks: seq<SizedChunk>) returns (pieces: seq<Piece>)
    requires forall c <- chunks :: GoodChunk(c)
    ensures (forall p <- pieces :: Proper(p)) && Render(pieces) == ChunksText(chunks) && Contents(pieces) == DataOf(chunks)
    decreases |chunks|
  {
    hide ParseChunkSize, HexValue, Digits, GoodExtension, SizeLine;
    if chunks == [] {
      pieces := [];
    } else {
      var c := chunks[0];
      assert c in chunks && forall d <- chunks[1..] :: d in chunks;
      var more := ChunksArePieces(chunks[1..]);
      var line := SizeLine(c.digits, c.extension);
      SizeLineRaw(c.digits, c.extension);
      SizeLineReads(c.digits, c.extension);
      pieces := PiecesOf(line, c.data, more);
      assert ChunksText(chunks) == line + [CR, LF] + c.data + [CR, LF] + ChunksText(chunks[1..]);
    }
  }

  lemma PiecesOf(line: Bytes, data: Bytes, more: seq<Piece>) returns (pieces: seq<Piece>)
    requires Proper(ChunkOf(line + [CR], data)) && forall p <- more :: Proper(p)
    ensures (forall p <- pieces :: Proper(p)) && Contents(pieces) == data + Contents(more)
    ensures Render(pieces) == line + [CR, LF] + data + [CR, LF] + Render(more)
  {
    hide ParseChunkSize;
    var blank := BlankLine([CR]);
    var tail := [blank] + more;
    pieces := [ChunkOf(line + [CR], data)] + tail;
    assert pieces[1..] == tail && tail[1..] == more;
    assert Proper(blank);
    assert [] + Contents(more) == Contents(more);
    assert Text(blank) == [CR, LF];
    assert Text(pieces[0]) == line + [CR, LF] + data;
    assert Render(tail) == [CR, LF] + Render(more);
  }

  lemma {:induction false} TrailersAreLines(trailers: seq<Bytes>) returns (raws: seq<Bytes>)
    requires forall t <- trailers :: t != [] && OnOneLine(t)
    ensures forall i :: 0 <= i < |raws| ==> Raw(raws[i]) && Content(raws[i]) != []
    ensures Lines(raws) == TrailersText(trailers)
    decreases |trailers|
  {
    if trailers == [] {
      raws := [];
    } else {
      assert trailers[0] in trailers && forall t <- trailers[1..] :: t in trailers;
      var more := TrailersAreLines(trailers[1..]);
      var raw := trailers[0] + [CR];
      raws := [raw] + more;
      assert raws[1..] == more && OnOneLine(trailers[0]);
      assert Content(raw) == trailers[0];
      assert raw + [LF] == trailers[0] + [CR, LF];
    }
  }

  /** Every body of section 7.1, with chunk extensions and trailers, is decoded to its data and found
      complete however TCP cuts it; what follows it is left over. */
  lemma WellFormedDecodes(b: Body, rest: Bytes, segments: seq<Bytes>)
    requires GoodBody(b) && Joined(segments) == BodyText(b) + rest
    ensures ProcessSegments(Size, [], segments) == (Done, rest, DataOf(b.chunks))
  {
    hide ParseChunkSize, HexValue, Process, Digits, GoodExtension, SizeLine;
    var pieces := ChunksArePieces(b.chunks);
    var raws := TrailersAreLines(b.trailers);
    var last := SizeLine(b.zeros, b.extension);
    SizeLineRaw(b.zeros, b.extension);
    SizeLineReads(b.zeros, b.extension);
    var e := Ending(last + [CR], raws, [CR]);
    assert Content([CR]) == [];
    assert last + [CR] + [LF] == last + [CR, LF] && [CR] + [LF] == [CR, LF];
    assert BodyText(b) + rest == Render(pieces) + RenderEnding(e) + rest;
    CompleteIff(BodyText(b) + rest, rest, DataOf(b.chunks));
    assert [] + Joined(segments) == BodyText(b) + rest;
    NothingYet();
    SplitsDoNotMatter(Size, [], segments);
  }

  lemma NothingYet()
    ensures Process(Size, []) == (Size, [], [])
  {
  }
}
