/** The WebSocket opening handshake, section 4.1 of RFC 6455: which server responses are accepted. */
module Handshake {
  import opened Wrappers
  import Base64

  const CRLF: string := "\r\n"
  const BLANK: string := "\r\n\r\n"
  const GUID: string := "258EAFA5-E914-47DA-95CA-C5AB0DC85B11"

  // ----- Text -----------------------------------------------------------------------------------

  predicate At(text: string, pattern: string, i: int) {
    0 <= i && i + |pattern| <= |text| && forall k :: 0 <= k < |pattern| ==> text[i + k] == pattern[k]
  }

  /** The first occurrence of a pattern from an offset on. */
  function Find(text: string, pattern: string, from: nat): (r: Option<nat>)
    ensures r.None? ==> forall i :: from <= i ==> !At(text, pattern, i)
    ensures r.Some? ==> from <= r.value && At(text, pattern, r.value)
    ensures r.Some? ==> forall i :: from <= i < r.value ==> !At(text, pattern, i)
    decreases |text| - from
  {
    if At(text, pattern, from) then Some(from)
    else if from >= |text| then None
    else Find(text, pattern, from + 1)
  }

  lemma FoundAt(text: string, pattern: string, k: nat)
    requires At(text, pattern, k) && forall i :: 0 <= i < k ==> !At(text, pattern, i)
    ensures Find(text, pattern, 0) == Some(k)
  {
  }

  ghost predicate Free(text: string, pattern: string) {
    forall i :: !At(text, pattern, i)
  }

  /** The pieces between the occurrences of a separator. */
  function Split(text: string, separator: string): (pieces: seq<string>)
    requires separator != ""
    ensures |pieces| > 0
    decreases |text|
  {
    match Find(text, separator, 0)
    case None => [text]
    case Some(i) => [text[..i]] + Split(text[i + |separator|..], separator)
  }

  function Join(pieces: seq<string>): string
    requires |pieces| > 0
  {
    if |pieces| == 1 then pieces[0] else pieces[0] + CRLF + Join(pieces[1..])
  }

  function Lower(c: char): char {
    if 'A' <= c <= 'Z' then c + ('a' - 'A') else c
  }

  predicate SameIgnoringCase(a: string, b: string) {
    |a| == |b| && forall i :: 0 <= i < |a| ==> Lower(a[i]) == Lower(b[i])
  }

  predicate Blank(c: char) { c == ' ' || c == '\t' }

  function TrimLeft(s: string): string {
    if s != "" && Blank(s[0]) then TrimLeft(s[1..]) else s
  }

  function TrimRight(s: string): string {
    if s != "" && Blank(s[|s| - 1]) then TrimRight(s[..|s| - 1]) else s
  }

  function Trim(s: string): string { TrimRight(TrimLeft(s)) }

  // ----- What is accepted -----------------------------------------------------------------------

  /** A comma-separated list names a token, whatever its case and the white space around it. */
  predicate HasToken(value: string, token: string) {
    exists piece <- Split(value, ",") :: SameIgnoringCase(Trim(piece), token)
  }

  function Colon(line: string): Option<nat> { Find(line, ":", 0) }

  predicate WellFormed(line: string) {
    && line != "" && !Blank(line[0])
    && Colon(line).Some? && Colon(line).value != 0
    && Trim(line[..Colon(line).value]) == line[..Colon(line).value]
  }

  predicate Named(line: string, name: string) {
    Colon(line).Some? && SameIgnoringCase(line[..Colon(line).value], name)
  }

  function ValueOf(line: string): string
    requires Colon(line).Some?
  {
    Trim(line[Colon(line).value + 1..])
  }

  predicate Lists(line: string, name: string, token: string) {
    Named(line, name) && HasToken(ValueOf(line), token)
  }

  predicate GoodStatus(status: string) {
    |status| >= 13 && status[..9] == "HTTP/1.1 " && status[9..12] == "101" && status[12] == ' '
  }

  function CountNamed(lines: seq<string>, name: string): nat {
    if lines == [] then 0 else CountNamed(lines[..|lines| - 1], name) + if Named(lines[|lines| - 1], name) then 1 else 0
  }

  /** Every line is a header, the upgrade is confirmed twice, and the one accept value is right. */
  predicate Confirms(lines: seq<string>, accept: string) {
    && (forall line <- lines :: WellFormed(line))
    && (exists line <- lines :: Lists(line, "Upgrade", "websocket"))
    && (exists line <- lines :: Lists(line, "Connection", "Upgrade"))
    && CountNamed(lines, "Sec-WebSocket-Accept") == 1
    && (forall line <- lines :: Named(line, "Sec-WebSocket-Accept") ==> ValueOf(line) == accept)
  }

  /** A response is accepted by its status line and header lines; what follows them is not looked at. */
  predicate Accepts(response: string, clientKey: string, accept: string) {
    && clientKey != ""
    && var end := Find(response, BLANK, 0);
    && end.Some?
    && var lines := Split(response[..end.value], CRLF);
    && GoodStatus(lines[0]) && Confirms(lines[1..], accept)
  }

  // ----- Responses as lines ---------------------------------------------------------------------

  ghost predicate HeaderLines(lines: seq<string>) {
    forall line <- lines :: line != "" && Free(line, CRLF)
  }

  /** The text of a response with the given status line, header lines and further bytes. */
  function Compose(status: string, lines: seq<string>, tail: string): string {
    Join([status] + lines) + BLANK + tail
  }

  lemma AtCrlf(text: string, i: int)
    ensures At(text, CRLF, i) <==> 0 <= i && i + 2 <= |text| && text[i] == '\r' && text[i + 1] == '\n'
  {
    assert At(text, CRLF, i) ==> text[i + 0] == CRLF[0] && text[i + 1] == CRLF[1];
  }

  lemma AtBlank(text: string, i: int)
    ensures At(text, BLANK, i) <==> At(text, CRLF, i) && At(text, CRLF, i + 2)
  {
    AtCrlf(text, i);
    AtCrlf(text, i + 2);
    assert At(text, BLANK, i) ==> text[i + 0] == BLANK[0] && text[i + 1] == BLANK[1]
                                  && text[i + 2] == BLANK[2] && text[i + 3] == BLANK[3];
  }

  /** The first line end after a text free of line ends is the one that follows it. */
  lemma FirstLineEnd(piece: string, rest: string)
    requires Free(piece, CRLF)
    ensures Find(piece + CRLF + rest, CRLF, 0) == Some(|piece|)
  {
    var text := piece + CRLF + rest;
    AtCrlf(text, |piece|);
    forall i | 0 <= i < |piece| ensures !At(text, CRLF, i) {
      AtCrlf(text, i);
      AtCrlf(piece, i);
    }
  }

  lemma {:induction false} SplitOfJoin(pieces: seq<string>)
    requires |pieces| > 0 && forall piece <- pieces :: Free(piece, CRLF)
    ensures Split(Join(pieces), CRLF) == pieces
  {
    if |pieces| > 1 {
      var (piece, rest) := (pieces[0], Join(pieces[1..]));
      FirstLineEnd(piece, rest);
      assert (piece + CRLF + rest)[..|piece|] == piece;
      assert (piece + CRLF + rest)[|piece| + 2..] == rest;
      SplitOfJoin(pieces[1..]);
    } else {
      assert Free(pieces[0], CRLF);
    }
  }

  lemma {:induction false} JoinOfSplit(text: string)
    ensures Join(Split(text, CRLF)) == text
    ensures forall piece <- Split(text, CRLF) :: Free(piece, CRLF)
    decreases |text|
  {
    var found := Find(text, CRLF, 0);
    if found.Some? {
      var i := found.value;
      var (piece, rest) := (text[..i], text[i + 2..]);
      JoinOfSplit(rest);
      assert Split(text, CRLF) == [piece] + Split(rest, CRLF);
      assert text == piece + CRLF + rest;
      forall j ensures !At(piece, CRLF, j) {
        AtCrlf(piece, j);
        AtCrlf(text, j);
      }
    }
  }

  /** No blank line comes before the end of the header lines. */
  lemma {:induction false} FirstBlank(pieces: seq<string>, tail: string)
    requires |pieces| > 0 && Free(pieces[0], CRLF) && HeaderLines(pieces[1..])
    ensures Find(Join(pieces) + BLANK + tail, BLANK, 0) == Some(|Join(pieces)|)
  {
    hide Free, At, Find, HeaderLines;
    if |pieces| == 1 {
      BlankHere(pieces[0], tail);
    } else {
      var later := Join(pieces[1..]) + BLANK + tail;
      FirstLineKnown(pieces[1..]);
      FirstBlank(pieces[1..], tail);
      LineStarts(pieces[1..], tail);
      BlankLater(pieces[0], later, |Join(pieces[1..])|);
      TextGroups(pieces[0], Join(pieces[1..]), tail);
    }
  }

  lemma FirstLineKnown(lines: seq<string>)
    requires lines != [] && HeaderLines(lines)
    ensures Free(lines[0], CRLF) && HeaderLines(lines[1..])
  {
    assert lines[0] in lines && forall line <- lines[1..] :: line in lines;
  }

  lemma TextGroups(a: string, b: string, tail: string)
    ensures a + CRLF + (b + BLANK + tail) == a + CRLF + b + BLANK + tail
  {
  }

  lemma BlankHere(piece: string, tail: string)
    requires Free(piece, CRLF)
    ensures Find(piece + BLANK + tail, BLANK, 0) == Some(|piece|)
  {
    var text := piece + BLANK + tail;
    assert text[|piece|..|piece| + 4] == BLANK;
    assert At(text, BLANK, |piece|);
    assert text == piece + CRLF + (CRLF + tail);
    hide At, Find, Free;
    forall i | 0 <= i < |piece| ensures !At(text, BLANK, i) {
      if At(text, BLANK, i) {
        NoBlankAt(piece, CRLF + tail, i);
      }
    }
    FoundAt(text, BLANK, |piece|);
  }

  lemma BlankLater(piece: string, later: string, k: nat)
    requires Free(piece, CRLF) && !At(later, CRLF, 0) && Find(later, BLANK, 0) == Some(k)
    ensures Find(piece + CRLF + later, BLANK, 0) == Some(|piece| + 2 + k)
  {
    var text := piece + CRLF + later;
    var n := |piece| + 2 + k;
    AtBlank(later, k);
    AtBlank(text, n);
    AtCrlf(later, k);
    AtCrlf(later, k + 2);
    AtCrlf(text, n);
    AtCrlf(text, n + 2);
    hide At, Find, Free;
    assert At(text, BLANK, n);
    forall i | 0 <= i < n ensures !At(text, BLANK, i) {
      if At(text, BLANK, i) {
        NoBlankAt(piece, later, i);
      }
    }
    FoundAt(text, BLANK, n);
  }

  /** A header line does not begin with a line end, whatever follows. */
  lemma LineStarts(pieces: seq<string>, tail: string)
    requires |pieces| > 0 && HeaderLines(pieces)
    ensures !At(Join(pieces) + BLANK + tail, CRLF, 0)
  {
    var text := Join(pieces) + BLANK + tail;
    AtCrlf(text, 0);
    AtCrlf(pieces[0], 0);
    assert pieces[0] != "" && Free(pieces[0], CRLF);
  }

  lemma NoBlankAt(piece: string, later: string, i: nat)
    requires Free(piece, CRLF) && At(piece + CRLF + later, BLANK, i)
    ensures if i < |piece| + 2 then i == |piece| && At(later, CRLF, 0) else At(later, BLANK, i - |piece| - 2)
  {
    var text := piece + CRLF + later;
    AtBlank(text, i);
    AtCrlf(text, i);
    AtCrlf(text, i + 2);
    AtCrlf(piece, i);
    AtCrlf(later, 0);
    if i >= |piece| + 2 {
      AtBlank(later, i - |piece| - 2);
      AtCrlf(later, i - |piece| - 2);
      AtCrlf(later, i - |piece|);
    }
  }

  /** A response made of lines is judged by those lines. */
  lemma ComposedIsJudged(status: string, lines: seq<string>, tail: string, key: string, accept: string)
    requires Free(status, CRLF) && HeaderLines(lines)
    ensures Accepts(Compose(status, lines, tail), key, accept)
       <==> key != "" && GoodStatus(status) && Confirms(lines, accept)
  {
    var pieces := [status] + lines;
    assert pieces[1..] == lines;
    FirstBlank(pieces, tail);
    SplitOfJoin(pieces);
    assert Compose(status, lines, tail)[..|Join(pieces)|] == Join(pieces);
  }

  /** Every text with a blank line is made of lines. */
  lemma TextIsComposed(response: string, end: nat)
    requires Find(response, BLANK, 0) == Some(end)
    ensures var pieces := Split(response[..end], CRLF);
      && response == Compose(pieces[0], pieces[1..], response[end + 4..])
      && Free(pieces[0], CRLF) && HeaderLines(pieces[1..])
  {
    var head := response[..end];
    var pieces := Split(head, CRLF);
    JoinOfSplit(head);
    hide Split, Find;
    assert response[end..end + 4] == BLANK;
    hide At;
    assert [pieces[0]] + pieces[1..] == pieces;
    assert response == head + response[end..end + 4] + response[end + 4..];
    forall k | 1 <= k < |pieces| ensures pieces[k] != "" {
      if pieces[k] == "" {
        var before := EmptyPiece(head, k);
        BlankWithin(response, end, before);
      }
    }
  }

  lemma AtShift(text: string, k: nat, i: nat)
    requires k <= |text|
    ensures At(text[k..], CRLF, i) <==> At(text, CRLF, i + k)
  {
    AtCrlf(text[k..], i);
    AtCrlf(text, i + k);
  }

  /** An empty line follows a line end, and is followed by one unless it is the last. */
  lemma {:induction false} EmptyPiece(head: string, k: nat) returns (before: nat)
    requires 1 <= k < |Split(head, CRLF)| && Split(head, CRLF)[k] == ""
    ensures At(head, CRLF, before) && (before + 2 == |head| || At(head, CRLF, before + 2))
    decreases k
  {
    hide Split, At, Find;
    SplitStep(head);
    var i := Find(head, CRLF, 0).value;
    var rest := head[i + 2..];
    if k == 1 {
      before := i;
      EmptyFirst(rest);
      AtShift(head, i + 2, 0);
    } else {
      var b := EmptyPiece(rest, k - 1);
      before := b + i + 2;
      AtShift(head, i + 2, b);
      AtShift(head, i + 2, b + 2);
    }
  }

  lemma SplitStep(text: string)
    requires |Split(text, CRLF)| > 1
    ensures var found := Find(text, CRLF, 0);
      && found.Some? && At(text, CRLF, found.value) && found.value + 2 <= |text|
      && var rest := Split(text[found.value + 2..], CRLF);
      && |Split(text, CRLF)| == |rest| + 1
      && forall k :: 1 <= k <= |rest| ==> Split(text, CRLF)[k] == rest[k - 1]
  {
    hide Find;
    assert Find(text, CRLF, 0).Some? ==> At(text, CRLF, Find(text, CRLF, 0).value);
    hide At;
  }

  lemma EmptyFirst(text: string)
    requires Split(text, CRLF)[0] == ""
    ensures text == "" || At(text, CRLF, 0)
  {
  }

  lemma BlankWithin(response: string, end: nat, before: nat)
    requires Find(response, BLANK, 0) == Some(end)
    ensures !(At(response[..end], CRLF, before) && (before + 2 == end || At(response[..end], CRLF, before + 2)))
  {
    AtCrlf(response[..end], before);
    AtCrlf(response[..end], before + 2);
    AtCrlf(response, before);
    AtCrlf(response, before + 2);
    AtBlank(response, before);
    AtBlank(response, end);
  }

  /** What is accepted: exactly the texts made of a good status line and confirming header lines. */
  lemma AcceptsIff(response: string, key: string, accept: string)
    ensures Accepts(response, key, accept) <==>
      && key != ""
      && exists status, lines, tail ::
           && response == Compose(status, lines, tail) && Free(status, CRLF) && HeaderLines(lines)
           && GoodStatus(status) && Confirms(lines, accept)
  {
    hide GoodStatus, Confirms, Free, HeaderLines, Compose, Split, Find;
    forall status, lines, tail | response == Compose(status, lines, tail) && Free(status, CRLF) && HeaderLines(lines)
      ensures Accepts(response, key, accept) <==> key != "" && GoodStatus(status) && Confirms(lines, accept)
    {
      ComposedIsJudged(status, lines, tail, key, accept);
    }
    var end := Find(response, BLANK, 0);
    if end.Some? {
      TextIsComposed(response, end.value);
    }
  }

  // ----- Order does not matter ------------------------------------------------------------------

  lemma {:induction false} CountSplits(a: seq<string>, b: seq<string>, name: string)
    ensures CountNamed(a + b, name) == CountNamed(a, name) + CountNamed(b, name)
    decreases |b|
  {
    if b == [] {
      assert a + b == a;
    } else {
      var front := b[..|b| - 1];
      CountSplits(a, front, name);
      assert (a + b)[..|a + b| - 1] == a + front;
    }
  }

  lemma CountMiddle(x: seq<string>, line: string, y: seq<string>, name: string)
    ensures CountNamed(x + [line] + y, name) == CountNamed(x + y, name) + CountNamed([line], name)
  {
    hide CountNamed;
    CountSplits(x + [line], y, name);
    CountSplits(x, [line], name);
    CountSplits(x, y, name);
  }

  lemma WithoutOne(front: seq<string>, last: string, x: seq<string>, y: seq<string>)
    requires multiset(front + [last]) == multiset(x + [last] + y)
    ensures multiset(front) == multiset(x + y)
  {
    assert multiset(front) == multiset(front + [last]) - multiset{last};
    assert multiset(x + y) == multiset(x + [last] + y) - multiset{last};
  }

  lemma {:induction false} CountIgnoresOrder(a: seq<string>, b: seq<string>, name: string)
    requires multiset(a) == multiset(b)
    ensures CountNamed(a, name) == CountNamed(b, name)
    decreases |a|
  {
    hide CountNamed;
    if a == [] {
      assert |b| == |multiset(b)| == 0;
    } else {
      var last := a[|a| - 1];
      var front := a[..|a| - 1];
      assert a == front + [last];
      assert last in multiset(b);
      var i :| 0 <= i < |b| && b[i] == last;
      var (x, y) := (b[..i], b[i + 1..]);
      assert b == x + [last] + y;
      WithoutOne(front, last, x, y);
      CountIgnoresOrder(front, x + y, name);
      CountMiddle(x, last, y, name);
      CountMiddle(front, last, [], name);
      assert front + [] == front && front + [last] + [] == a;
    }
  }

  /** Header lines may come in any order. */
  lemma ReorderingIsHarmless(status: string, lines: seq<string>, other: seq<string>, tail: string, key: string, accept: string)
    requires Free(status, CRLF) && HeaderLines(lines) && multiset(lines) == multiset(other)
    ensures Accepts(Compose(status, lines, tail), key, accept) == Accepts(Compose(status, other, tail), key, accept)
  {
    forall line ensures line in lines <==> line in other {
      assert line in multiset(lines) <==> line in multiset(other);
    }
    CountIgnoresOrder(lines, other, "Sec-WebSocket-Accept");
    assert Confirms(lines, accept) == Confirms(other, accept);
    ComposedIsJudged(status, lines, tail, key, accept);
    ComposedIsJudged(status, other, tail, key, accept);
  }

  // ----- An ordinary response ---------------------------------------------------------------------

  function Upper(s: string): string {
    seq(|s|, i requires 0 <= i < |s| => if 'a' <= s[i] <= 'z' then s[i] - ('a' - 'A') else s[i])
  }

  /** Names and tokens are compared as if both were in capitals. */
  lemma CaseDoesNotMatter(a: string, b: string)
    ensures SameIgnoringCase(a, b) <==> Upper(a) == Upper(b)
  {
    if Upper(a) == Upper(b) {
      assert |a| == |b|;
      forall i | 0 <= i < |a| ensures Lower(a[i]) == Lower(b[i]) {
        assert Upper(a)[i] == Upper(b)[i];
      }
    }
    if SameIgnoringCase(a, b) {
      assert forall i :: 0 <= i < |a| ==> Lower(a[i]) == Lower(b[i]) && Upper(a)[i] == Upper(b)[i];
    }
  }

  predicate Solid(s: string) {
    s != "" && !Blank(s[0]) && !Blank(s[|s| - 1])
  }

  ghost predicate Plain(s: string, c: char) {
    forall i :: 0 <= i < |s| ==> s[i] != c
  }

  lemma SolidIsTrimmed(s: string)
    requires Solid(s)
    ensures Trim(s) == s && Trim(" " + s) == s
  {
    var spaced := " " + s;
    assert spaced[1..] == s;
    assert TrimLeft(spaced) == TrimLeft(s);
  }

  lemma PlainIsFree(s: string, pattern: string)
    requires |pattern| == 1 && Plain(s, pattern[0])
    ensures Free(s, pattern)
  {
    forall i ensures !At(s, pattern, i) {
      if 0 <= i && i + 1 <= |s| {
        assert s[i + 0] != pattern[0];
      }
    }
  }

  /** A header written in the ordinary way is read as its name and value. */
  lemma HeaderReads(name: string, value: string)
    requires Solid(name) && Plain(name, ':') && Solid(value)
    ensures var line := name + ": " + value;
      WellFormed(line) && Colon(line) == Some(|name|) && line[..|name|] == name && ValueOf(line) == value
  {
    var line := name + ": " + value;
    assert forall i :: 0 <= i < |name| ==> line[i] == name[i];
    assert line[|name|] == ':';
    forall i | 0 <= i < |name| ensures !At(line, ":", i) {
      assert line[i + 0] != ":"[0];
    }
    FoundAt(line, ":", |name|);
    assert line[..|name|] == name && line[|name| + 1..] == " " + value;
    SolidIsTrimmed(name);
    SolidIsTrimmed(value);
  }

  lemma TokenByItself(value: string, token: string)
    requires Solid(value) && Plain(value, ',') && SameIgnoringCase(value, token)
    ensures HasToken(value, token)
  {
    PlainIsFree(value, ",");
    SolidIsTrimmed(value);
    assert Split(value, ",") == [value];
  }

  predicate Word(s: string) {
    s != "" && forall i :: 0 <= i < |s| ==> 'A' <= s[i] <= 'Z' || 'a' <= s[i] <= 'z' || s[i] == '-'
  }

  lemma WordInAnyCase(s: string, word: string)
    requires Word(word) && SameIgnoringCase(s, word)
    ensures Solid(s) && Plain(s, ':') && Plain(s, ',') && Plain(s, '\r')
  {
    assert forall i :: 0 <= i < |s| ==> Lower(s[i]) == Lower(word[i]);
  }

  lemma HeaderIsLine(name: string, value: string)
    requires name != "" && Plain(name, '\r') && Plain(value, '\r')
    ensures var line := name + ": " + value; line != "" && Free(line, CRLF)
  {
    PlainLine(name + ": " + value);
  }

  lemma PlainLine(line: string)
    requires Plain(line, '\r')
    ensures Free(line, CRLF)
  {
    forall i ensures !At(line, CRLF, i) {
      AtCrlf(line, i);
    }
  }

  lemma GoodStatusLine()
    ensures GoodStatus("HTTP/1.1 101 Switching Protocols") && Free("HTTP/1.1 101 Switching Protocols", CRLF)
  {
    var status := "HTTP/1.1 101 Switching Protocols";
    assert status[..9] == "HTTP/1.1 ";
    assert status[9] == '1' && status[10] == '0' && status[11] == '1';
    assert status[9..12] == ['1', '0', '1'];
    PlainLine(status);
  }

  lemma AgreeingHeader(name: string, expectedName: string, value: string)
    requires Word(expectedName) && SameIgnoringCase(name, expectedName) && Solid(value) && Plain(value, '\r')
    ensures var line := name + ": " + value;
      line != "" && Free(line, CRLF) && WellFormed(line) && Named(line, expectedName) && ValueOf(line) == value
  {
    WordInAnyCase(name, expectedName);
    HeaderIsLine(name, value);
    HeaderReads(name, value);
  }

  /** Headers that agree confirm the upgrade. */
  lemma AgreementConfirms(a: string, b: string, c: string, accept: string)
    requires WellFormed(a) && WellFormed(b) && WellFormed(c)
    requires Lists(a, "Upgrade", "websocket") && Lists(b, "Connection", "Upgrade")
    requires Named(c, "Sec-WebSocket-Accept") && ValueOf(c) == accept
    ensures Confirms([a, b, c], accept)
  {
    NamesDiffer(a);
    NamesDiffer(b);
    NamesDiffer(c);
    hide WellFormed, HasToken, Named, ValueOf, CountNamed;
    CountThree(a, b, c, "Sec-WebSocket-Accept");
    assert a in [a, b, c] && b in [a, b, c];
  }

  lemma CountThree(a: string, b: string, c: string, name: string)
    ensures CountNamed([a, b, c], name)
         == (if Named(a, name) then 1 else 0) + (if Named(b, name) then 1 else 0) + (if Named(c, name) then 1 else 0)
  {
    hide Named;
    assert [a, b, c][..2] == [a, b] && [a, b][..1] == [a] && [a][..0] == [];
    assert CountNamed([a], name) == if Named(a, name) then 1 else 0;
    assert CountNamed([a, b], name) == CountNamed([a], name) + if Named(b, name) then 1 else 0;
  }

  /** The response of a server that agrees is accepted, in whatever case it writes names and tokens and
      whatever it sends after its headers. */
  lemma AgreementIsAccepted(upgrade: string, websocket: string, connection: string, change: string, sealed: string,
                            accept: string, key: string, tail: string)
    requires key != "" && Solid(accept) && Plain(accept, '\r')
    requires SameIgnoringCase(upgrade, "Upgrade") && SameIgnoringCase(websocket, "websocket")
    requires SameIgnoringCase(connection, "Connection") && SameIgnoringCase(change, "Upgrade")
    requires SameIgnoringCase(sealed, "Sec-WebSocket-Accept")
    ensures var lines := [upgrade + ": " + websocket, connection + ": " + change, sealed + ": " + accept];
      Accepts(Compose("HTTP/1.1 101 Switching Protocols", lines, tail), key, accept)
  {
    hide WellFormed, HasToken, ValueOf, SameIgnoringCase, Find, Split, Trim, Free, Confirms, Compose, Accepts, GoodStatus;
    var (a, b, c) := (upgrade + ": " + websocket, connection + ": " + change, sealed + ": " + accept);
    WordInAnyCase(websocket, "websocket");
    WordInAnyCase(change, "Upgrade");
    AgreeingHeader(upgrade, "Upgrade", websocket);
    AgreeingHeader(connection, "Connection", change);
    AgreeingHeader(sealed, "Sec-WebSocket-Accept", accept);
    TokenByItself(websocket, "websocket");
    TokenByItself(change, "Upgrade");
    hide Named;
    AgreementConfirms(a, b, c, accept);
    GoodStatusLine();
    ComposedIsJudged("HTTP/1.1 101 Switching Protocols", [a, b, c], tail, key, accept);
  }

  // ----- The validator --------------------------------------------------------------------------

  method EqualsIgnoreCase(left: string, right: string) returns (same: bool)
    ensures same == SameIgnoringCase(left, right)
  {
    if |left| != |right| { return false; }
    for index := 0 to |left|
      invariant forall i :: 0 <= i < index ==> Lower(left[i]) == Lower(right[i])
    {
      if Lower(left[index]) != Lower(right[index]) { return false; }
    }
    return true;
  }

  method TrimHttpWhitespace(value: string) returns (r: string)
    ensures r == Trim(value)
  {
    r := value;
    while r != "" && Blank(r[0])
      invariant TrimLeft(r) == TrimLeft(value)
      decreases |r|
    {
      r := r[1..];
    }
    while r != "" && Blank(r[|r| - 1])
      invariant TrimRight(r) == Trim(value)
      decreases |r|
    {
      r := r[..|r| - 1];
    }
  }

  method ContainsHeaderToken(list: string, expected: string) returns (found: bool)
    ensures found == HasToken(list, expected)
  {
    hide Trim, SameIgnoringCase;
    var value := list;
    ghost var done: seq<string> := [];
    while true
      invariant done + Split(value, ",") == Split(list, ",")
      invariant forall piece <- done :: !SameIgnoringCase(Trim(piece), expected)
      decreases |value|
    {
      var separator := Find(value, ",", 0);
      var piece := if separator.Some? then value[..separator.value] else value;
      var token := TrimHttpWhitespace(piece);
      var same := EqualsIgnoreCase(token, expected);
      if same {
        assert Split(list, ",")[|done|] == piece;
        return true;
      }
      done := done + [piece];
      if separator.None? {
        assert Split(list, ",") == done;
        return false;
      }
      value := value[separator.value + 1..];
    }
  }

  /** The four flags of the header loop and whether a line has been refused. */
  datatype Flags = Flags(upgrade: bool, connection: bool, acceptSeen: bool, acceptMatches: bool)

  /** The flags say what the lines read so far say. */
  ghost predicate Read(f: Flags, lines: seq<string>, accept: string) {
    && (forall line <- lines :: WellFormed(line))
    && (f.upgrade <==> exists line <- lines :: Lists(line, "Upgrade", "websocket"))
    && (f.connection <==> exists line <- lines :: Lists(line, "Connection", "Upgrade"))
    && CountNamed(lines, "Sec-WebSocket-Accept") == (if f.acceptSeen then 1 else 0)
    && (f.acceptMatches ==> f.acceptSeen)
    && (f.acceptSeen ==> (f.acceptMatches <==> forall line <- lines :: Named(line, "Sec-WebSocket-Accept") ==> ValueOf(line) == accept))
  }

  /** A line that no continuation could repair. */
  ghost predicate Refused(lines: seq<string>) {
    || (exists line <- lines :: !WellFormed(line))
    || CountNamed(lines, "Sec-WebSocket-Accept") > 1
  }

  lemma NamesDiffer(line: string)
    ensures !(Named(line, "Upgrade") && Named(line, "Connection"))
    ensures !(Named(line, "Upgrade") && Named(line, "Sec-WebSocket-Accept"))
    ensures !(Named(line, "Connection") && Named(line, "Sec-WebSocket-Accept"))
  {
  }

  lemma {:induction false} CountZero(lines: seq<string>, name: string)
    requires CountNamed(lines, name) == 0
    ensures forall line <- lines :: !Named(line, name)
    decreases |lines|
  {
    if lines != [] {
      var front := lines[..|lines| - 1];
      CountZero(front, name);
      assert lines == front + [lines[|lines| - 1]];
    }
  }

  lemma ReadOne(f: Flags, lines: seq<string>, line: string, accept: string, g: Flags)
    requires Read(f, lines, accept) && WellFormed(line)
    requires !(f.acceptSeen && Named(line, "Sec-WebSocket-Accept"))
    requires g.upgrade == (f.upgrade || Lists(line, "Upgrade", "websocket"))
    requires g.connection == (f.connection || Lists(line, "Connection", "Upgrade"))
    requires g.acceptSeen == (f.acceptSeen || Named(line, "Sec-WebSocket-Accept"))
    requires g.acceptMatches == if Named(line, "Sec-WebSocket-Accept") then ValueOf(line) == accept else f.acceptMatches
    ensures Read(g, lines + [line], accept)
  {
    hide WellFormed, Lists, Named;
    var more := lines + [line];
    assert more[..|more| - 1] == lines && more[|more| - 1] == line;
    if !f.acceptSeen {
      CountZero(lines, "Sec-WebSocket-Accept");
    }
  }

  method ReadLine(f: Flags, line: string, accept: string, ghost lines: seq<string>) returns (ok: bool, g: Flags)
    requires Read(f, lines, accept)
    ensures ok ==> Read(g, lines + [line], accept)
    ensures !ok ==> Refused(lines + [line])
  {
    g := f;
    ok := false;
    assert (lines + [line])[|lines|] == line && (lines + [line])[..|lines|] == lines;
    assert !WellFormed(line) ==> Refused(lines + [line]);
    if line == "" || Blank(line[0]) { return; }
    var colon := Find(line, ":", 0);
    if colon.None? || colon.value == 0 { return; }
    var name := line[..colon.value];
    var trimmed := TrimHttpWhitespace(name);
    if trimmed != name { return; }
    assert WellFormed(line);
    NamesDiffer(line);
    hide WellFormed;
    var value := TrimHttpWhitespace(line[colon.value + 1..]);
    var isUpgrade := EqualsIgnoreCase(name, "Upgrade");
    var isConnection := EqualsIgnoreCase(name, "Connection");
    var isAccept := EqualsIgnoreCase(name, "Sec-WebSocket-Accept");
    if isUpgrade {
      var listed := ContainsHeaderToken(value, "websocket");
      g := f.(upgrade := f.upgrade || listed);
    } else if isConnection {
      var listed := ContainsHeaderToken(value, "Upgrade");
      g := f.(connection := f.connection || listed);
    } else if isAccept {
      if f.acceptSeen { return; }
      g := f.(acceptSeen := true, acceptMatches := value == accept);
    }
    ok := true;
    ReadOne(f, lines, line, accept, g);
  }

  lemma RefusedForever(lines: seq<string>, rest: seq<string>, accept: string)
    requires Refused(lines)
    ensures !Confirms(lines + rest, accept)
  {
    hide WellFormed, Lists, Named;
    CountSplits(lines, rest, "Sec-WebSocket-Accept");
  }

  /** The next line within the head, found by searching the whole response. */
  lemma NextLine(response: string, end: nat, offset: nat)
    requires offset <= end && At(response, CRLF, end)
    ensures var found := Find(response, CRLF, offset);
      && found.Some? && found.value <= end
      && Split(response[offset..end], CRLF) ==
           (if found.value + 2 <= end then [response[offset..found.value]] + Split(response[found.value + 2..end], CRLF)
            else [response[offset..end]])
      && (found.value == end || found.value + 2 <= end)
  {
    hide Find;
    var part := response[offset..end];
    var e := Find(response, CRLF, offset).value;
    LineEndsApart(response, e, end);
    forall i ensures At(part, CRLF, i) <==> 0 <= i && i + offset + 2 <= end && At(response, CRLF, i + offset) {
      AtPart(response, offset, end, i);
    }
    hide At;
    if e < end {
      FoundAt(part, CRLF, e - offset);
      assert part[..e - offset] == response[offset..e] && part[e - offset + 2..] == response[e + 2..end];
    }
  }

  lemma LineEndsApart(text: string, i: nat, j: nat)
    requires i <= j && At(text, CRLF, i) && At(text, CRLF, j)
    ensures i == j || i + 2 <= j
  {
    AtCrlf(text, i);
    AtCrlf(text, j);
  }

  lemma AtPart(text: string, offset: nat, end: nat, i: int)
    requires offset <= end <= |text|
    ensures At(text[offset..end], CRLF, i) <==> 0 <= i && i + offset + 2 <= end && At(text, CRLF, i + offset)
  {
    AtCrlf(text[offset..end], i);
    AtCrlf(text, i + offset);
  }

  /** `digest` stands for SHA-1. */
  method ValidateHandshakeResponse(response: string, clientKey: string, digest: string -> seq<byte>) returns (ok: bool)
    ensures ok == Accepts(response, clientKey, Base64.Encode(digest(clientKey + GUID)))
  {
    hide Confirms, GoodStatus, Free;
    if clientKey == "" { return false; }
    var headerEnd := Find(response, BLANK, 0);
    var statusEnd := Find(response, CRLF, 0);
    if headerEnd.None? || statusEnd.None? || statusEnd.value >= headerEnd.value {
      if headerEnd.Some? {
        AtBlank(response, headerEnd.value);
        NextLine(response, headerEnd.value, 0);
        assert Split(response[..headerEnd.value], CRLF)[1..] == [];
        NothingConfirmed(Base64.Encode(digest(clientKey + GUID)));
      }
      return false;
    }
    var end := headerEnd.value;
    AtBlank(response, end);
    assert end <= |response|;
    NextLine(response, end, 0);
    var status := response[..statusEnd.value];
    var good := CheckStatus(status);
    if !good { return false; }
    var accept := Base64.EncodeDigest(digest(clientKey + GUID));
    ok := CheckHeaders(response, end, statusEnd.value + 2, accept);
    assert Split(response[..end], CRLF)[1..] == Split(response[statusEnd.value + 2..end], CRLF);
  }

  lemma NothingConfirmed(accept: string)
    ensures !Confirms([], accept)
  {
  }

  method CheckStatus(status: string) returns (ok: bool)
    ensures ok == GoodStatus(status)
  {
    ok := !(|status| < 13 || status[0..9] != "HTTP/1.1 " || status[9..12] != "101" || status[12] != ' ');
  }

  /** The loop over the header lines. */
  method CheckHeaders(response: string, headerEnd: nat, start: nat, accept: string) returns (ok: bool)
    requires Find(response, BLANK, 0) == Some(headerEnd)
    requires start <= headerEnd <= |response| && Split(response[..headerEnd], CRLF)[1..] == Split(response[start..headerEnd], CRLF)
    ensures ok == Confirms(Split(response[start..headerEnd], CRLF), accept)
  {
    hide Confirms, Read, Refused, At, Split, Find, Remaining, Lists, Named;
    ghost var lines := Split(response[start..headerEnd], CRLF);
    ghost var done: seq<string> := [];
    RemainingAtStart(response, headerEnd, start);
    var flags := Flags(false, false, false, false);
    ReadNone(accept);
    var offset := start;
    while offset < headerEnd
      invariant Remaining(response, headerEnd, offset, done, lines)
      invariant Read(flags, done, accept)
      decreases headerEnd - offset
    {
      ghost var rest := RemainingStep(response, headerEnd, offset, done, lines);
      // The source also returns on a missing line end; the step above shows that it cannot happen.
      var lineEnd := Find(response, CRLF, offset);
      var line := response[offset..lineEnd.value];
      var valid, next := ReadLine(flags, line, accept, done);
      done := done + [line];
      if !valid {
        RefusedForever(done, rest, accept);
        return false;
      }
      flags := next;
      offset := lineEnd.value + 2;
    }
    AllRead(response, headerEnd, offset, done, lines);
    ok := flags.upgrade && flags.connection && flags.acceptSeen && flags.acceptMatches;
    FlagsDecide(flags, lines, accept);
  }

  /** The lines read and those still to be read at an offset of the head. */
  ghost predicate Remaining(response: string, end: nat, offset: nat, done: seq<string>, lines: seq<string>) {
    end <= |response| && lines == if offset <= end then done + Split(response[offset..end], CRLF) else done
  }

  lemma RemainingAtStart(response: string, end: nat, start: nat)
    requires Find(response, BLANK, 0) == Some(end) && start <= end <= |response|
    ensures At(response, CRLF, end)
    ensures Remaining(response, end, start, [], Split(response[start..end], CRLF))
  {
    AtBlank(response, end);
  }

  lemma RemainingStep(response: string, end: nat, offset: nat, done: seq<string>, lines: seq<string>)
    returns (rest: seq<string>)
    requires offset <= end && At(response, CRLF, end) && Remaining(response, end, offset, done, lines)
    ensures var found := Find(response, CRLF, offset);
      && found.Some? && found.value <= end
      && var more := done + [response[offset..found.value]];
      && Remaining(response, end, found.value + 2, more, lines)
      && lines == more + rest
  {
    NextLine(response, end, offset);
    hide Split, At, Find;
    var e := Find(response, CRLF, offset).value;
    rest := if e + 2 <= end then Split(response[e + 2..end], CRLF) else [];
    Regroup(done, response[offset..e], rest);
  }

  lemma Regroup(done: seq<string>, line: string, rest: seq<string>)
    ensures done + ([line] + rest) == done + [line] + rest
    ensures done + [line] == done + [line] + []
  {
  }

  /** The head does not end in an empty line, so the loop stops past its end. */
  lemma AllRead(response: string, end: nat, offset: nat, done: seq<string>, lines: seq<string>)
    requires Find(response, BLANK, 0) == Some(end) && lines == Split(response[..end], CRLF)[1..]
    requires end <= offset && Remaining(response, end, offset, done, lines)
    ensures done == lines
  {
    TextIsComposed(response, end);
    assert Split("", CRLF) == [""];
    assert response[end..end] == "";
    hide Compose, Free, Split, Find, At;
    assert offset == end ==> "" in lines;
  }

  lemma ReadNone(accept: string)
    ensures Read(Flags(false, false, false, false), [], accept)
  {
  }

  lemma FlagsDecide(f: Flags, lines: seq<string>, accept: string)
    requires Read(f, lines, accept)
    ensures Confirms(lines, accept) <==> f.upgrade && f.connection && f.acceptSeen && f.acceptMatches
  {
    hide WellFormed, Lists, Named;
  }
}
