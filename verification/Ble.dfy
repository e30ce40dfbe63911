/** Fragmenting a BLE message and putting it together again. */
module Ble {
  import opened Wrappers
  import opened Arithmetic

  const HEADER: nat := 10
  const FALLBACK_PAYLOAD: nat := 20
  const U16: nat := 0x1_0000

  /** The longest message the characteristics take (2048 in this firmware). */
  type Limit = x: nat | 0 < x < U16 witness 2048

  type Bytes = seq<byte>

  /** What a characteristic write can carry: its length is a 16-bit count. */
  type Frame = f: Bytes | |f| < U16

  // ----- Frames ---------------------------------------------------------------------------------

  function At16(f: Bytes, i: nat): nat
    requires i + 1 < |f|
  {
    (f[i] as int) * 256 + f[i + 1]
  }

  predicate IsFragment(f: Bytes) {
    |f| > HEADER && f[0] == 0xAA && f[1] == 0x55 && f[2] == 0xC3 && f[3] == 1
  }

  function Index(f: Bytes): nat requires IsFragment(f) { At16(f, 4) }
  function Total(f: Bytes): nat requires IsFragment(f) { At16(f, 6) }
  function Length(f: Bytes): nat requires IsFragment(f) { At16(f, 8) }
  function Body(f: Bytes): Bytes requires IsFragment(f) { f[HEADER..] }

  function MakeFragment(index: nat, total: nat, length: nat, body: Bytes): (f: Bytes)
    requires index < U16 && total < U16 && length < U16 && body != []
    ensures IsFragment(f) && Body(f) == body && |f| == HEADER + |body|
    ensures Index(f) == index && Total(f) == total && Length(f) == length
  {
    Header(index, total, length) + body
  }

  function Header(index: nat, total: nat, length: nat): (h: Bytes)
    requires index < U16 && total < U16 && length < U16
    ensures |h| == HEADER
  {
    [0xAA, 0x55, 0xC3, 1, index / 256, index % 256, total / 256, total % 256, length / 256, length % 256]
  }

  // ----- Assembler ------------------------------------------------------------------------------

  datatype Assembly = Idle | Assembling(length: nat, total: nat, next: nat, buffer: Bytes)

  /** Take one body into an assembly whose next fragment it is. */
  function Accept(length: nat, total: nat, next: nat, buffer: Bytes, body: Bytes): (Assembly, Option<Bytes>) {
    var grown := buffer + body;
    if |grown| > length then (Idle, None)
    else if next + 1 < total then
      if |grown| < length then (Assembling(length, total, next + 1, grown), None) else (Idle, None)
    else if |grown| != length then (Idle, None)
    else (Idle, Some(grown))
  }

  function Consume(limit: Limit, a: Assembly, f: Bytes): (Assembly, Option<Bytes>) {
    if !IsFragment(f) then (Idle, Some(f))
    else if Total(f) == 0 || Length(f) == 0 || Length(f) > limit then (Idle, None)
    else if Index(f) == 0 then Accept(Length(f), Total(f), 0, [], Body(f))
    else if a.Idle? then (Idle, None)
    else if Index(f) != a.next || Total(f) != a.total || Length(f) != a.length then (Idle, None)
    else Accept(a.length, a.total, a.next, a.buffer, Body(f))
  }

  class BleFragmentAssembler {
    const limit: Limit
    var assembling: bool
    var expectedTotalLen: nat
    var expectedTotalPackets: nat
    var expectedPacketIndex: nat
    var buffer: Bytes

    ghost predicate Valid()
      reads this
    {
      && expectedTotalLen < U16 && expectedTotalPackets < U16
      && (assembling ==> expectedPacketIndex < expectedTotalPackets && |buffer| < expectedTotalLen)
      && (!assembling ==> expectedTotalLen == expectedTotalPackets == expectedPacketIndex == 0 && buffer == [])
    }

    ghost function View(): Assembly
      reads this
    {
      if assembling then Assembling(expectedTotalLen, expectedTotalPackets, expectedPacketIndex, buffer) else Idle
    }

    constructor (limit: Limit)
      ensures this.limit == limit && Valid() && View() == Idle
    {
      this.limit := limit;
      assembling, expectedTotalLen, expectedTotalPackets, expectedPacketIndex, buffer := false, 0, 0, 0, [];
    }

    method Reset()
      modifies this
      ensures Valid() && View() == Idle
    {
      assembling := false;
      expectedTotalLen := 0;
      expectedTotalPackets := 0;
      expectedPacketIndex := 0;
      buffer := [];
    }

    method Start(length: nat, total: nat)
      requires 0 < length < U16 && 0 < total < U16
      modifies this
      ensures Valid() && View() == Assembling(length, total, 0, [])
    {
      assembling := true;
      expectedTotalLen := length;
      expectedTotalPackets := total;
      expectedPacketIndex := 0;
      buffer := [];
    }

    /** Append the body of the fragment that is due; the packet counter is a 16-bit one. */
    method TakeBody(body: Bytes) returns (out: Option<Bytes>)
      requires Valid() && assembling && body != []
      modifies this
      ensures Valid()
      ensures (View(), out) == Accept(old(expectedTotalLen), old(expectedTotalPackets), old(expectedPacketIndex), old(buffer), body)
    {
      if |buffer| + |body| > expectedTotalLen {
        Reset();
        return None;
      }
      buffer := buffer + body;
      expectedPacketIndex := (expectedPacketIndex + 1) % U16;
      if expectedPacketIndex < expectedTotalPackets {
        if |buffer| < expectedTotalLen {
          return None;
        }
        Reset();
        return None;
      }
      if |buffer| != expectedTotalLen {
        Reset();
        return None;
      }
      assert buffer[..expectedTotalLen] == buffer;
      out := Some(buffer[..expectedTotalLen]);
      Reset();
    }

    method ConsumeFrame(data: Frame) returns (out: Option<Bytes>)
      requires Valid()
      modifies this
      ensures Valid()
      ensures (View(), out) == Consume(limit, old(View()), data)
    {
      if !IsFragment(data) {
        Reset();
        return Some(data);
      }
      var packetIndex := At16(data, 4);
      var totalPackets := At16(data, 6);
      var totalLen := At16(data, 8);
      var payload := data[HEADER..];
      if totalPackets == 0 || totalLen == 0 || totalLen > limit {
        Reset();
        return None;
      }
      if !assembling {
        if packetIndex != 0 {
          return None;
        }
        Start(totalLen, totalPackets);
      } else if packetIndex == 0 {
        Start(totalLen, totalPackets);
      } else if packetIndex != expectedPacketIndex || totalPackets != expectedTotalPackets
             || totalLen != expectedTotalLen {
        Reset();
        return None;
      }
      if payload == [] {
        assert false;  // a fragment frame is longer than its header
      }
      out := TakeBody(payload);
    }
  }

  // ----- What assembling means ------------------------------------------------------------------

  /** Consecutive fragments 0, 1, 2, ... of one message. */
  predicate IsRun(fs: seq<Bytes>, total: nat, length: nat) {
    forall i :: 0 <= i < |fs| ==>
      IsFragment(fs[i]) && Index(fs[i]) == i && Total(fs[i]) == total && Length(fs[i]) == length
  }

  function Bodies(fs: seq<Bytes>): Bytes
    requires forall i :: 0 <= i < |fs| ==> IsFragment(fs[i])
  {
    if fs == [] then [] else Bodies(fs[..|fs| - 1]) + Body(fs[|fs| - 1])
  }

  function Last<T>(s: seq<T>, n: nat): seq<T>
    requires n <= |s|
  {
    s[|s| - n..]
  }

  /** The assembly after a history of frames. */
  function After(limit: Limit, a: Assembly, history: seq<Bytes>): Assembly {
    if history == [] then a
    else Consume(limit, After(limit, a, history[..|history| - 1]), history[|history| - 1]).0
  }

  /** The last frames of the history are the run that the assembly holds. */
  ghost predicate Tracks(a: Assembly, history: seq<Bytes>) {
    a.Assembling? ==>
      && 0 < a.next < a.total && a.next <= |history| && |a.buffer| < a.length
      && IsRun(Last(history, a.next), a.total, a.length)
      && a.buffer == Bodies(Last(history, a.next))
  }

  lemma AppendFragment(history: seq<Bytes>, n: nat, f: Bytes, total: nat, length: nat)
    requires n <= |history| && IsRun(Last(history, n), total, length)
    requires IsFragment(f) && Index(f) == n && Total(f) == total && Length(f) == length
    ensures IsRun(Last(history + [f], n + 1), total, length)
    ensures Bodies(Last(history + [f], n + 1)) == Bodies(Last(history, n)) + Body(f)
  {
    var longer := Last(history + [f], n + 1);
    assert longer == Last(history, n) + [f];
    assert longer[..|longer| - 1] == Last(history, n);
  }

  lemma EmptyRun(fs: seq<Bytes>, total: nat, length: nat)
    requires fs == []
    ensures IsRun(fs, total, length) && Bodies(fs) == []
  {
  }

  /** One frame more: the assembly still holds the last run, and what comes out, if anything does,
      is a whole message. */
  lemma ConsumeTracks(limit: Limit, a: Assembly, history: seq<Bytes>, f: Bytes)
    requires Tracks(a, history)
    ensures Tracks(Consume(limit, a, f).0, history + [f])
    ensures IsFragment(f) && Consume(limit, a, f).1.Some? ==>
      WholeMessage(limit, history + [f], Consume(limit, a, f).1.value)
  {
    hide Bodies, IsRun, IsFragment, Index, Total, Length, Body;
    if IsFragment(f) {
      if Index(f) == 0 {
        EmptyRun(Last(history, 0), Total(f), Length(f));
        AppendFragment(history, 0, f, Total(f), Length(f));
      } else if a.Assembling? && Index(f) == a.next && Total(f) == a.total && Length(f) == a.length {
        AppendFragment(history, a.next, f, a.total, a.length);
      }
    }
  }

  /** The last fragments of the history are all the fragments of one message and carry exactly it. */
  ghost predicate WholeMessage(limit: Limit, history: seq<Bytes>, message: Bytes) {
    && history != [] && IsFragment(history[|history| - 1])
    && var f := history[|history| - 1];
       && 0 < Total(f) <= |history|
       && IsRun(Last(history, Total(f)), Total(f), Length(f))
       && message == Bodies(Last(history, Total(f)))
       && 0 < |message| == Length(f) <= limit
  }

  lemma {:induction false} AfterTracks(limit: Limit, history: seq<Bytes>)
    ensures Tracks(After(limit, Idle, history), history)
    decreases |history|
  {
    if history != [] {
      var n := |history| - 1;
      AfterTracks(limit, history[..n]);
      ConsumeTracks(limit, After(limit, Idle, history[..n]), history[..n], history[n]);
      assert history[..n] + [history[n]] == history;
    }
  }

  /** What the assembler holds after the first fragments of a run, from any state whatever. */
  lemma {:induction false} RunPrefix(limit: Limit, a: Assembly, fs: seq<Bytes>, total: nat, length: nat, n: nat)
    requires 0 < n < |fs| == total && IsRun(fs, total, length)
    requires 0 < length <= limit && |Bodies(fs)| == length
    ensures |Bodies(fs[..n])| < length
    ensures After(limit, a, fs[..n]) == Assembling(length, total, n, Bodies(fs[..n]))
    decreases n
  {
    PrefixShorter(fs, n);
    assert fs[..n][..n - 1] == fs[..n - 1];
    if n == 1 {
      assert fs[..1] == [fs[0]] && fs[..0] == [];
      assert Bodies(fs[..1]) == Body(fs[0]);
    } else {
      RunPrefix(limit, a, fs, total, length, n - 1);
    }
  }

  lemma {:induction false} PrefixShorter(fs: seq<Bytes>, n: nat)
    requires n < |fs| && forall i :: 0 <= i < |fs| ==> IsFragment(fs[i])
    ensures |Bodies(fs[..n])| < |Bodies(fs)|
    decreases |fs|
  {
    var m := |fs| - 1;
    if n < m {
      PrefixShorter(fs[..m], n);
      assert fs[..m][..n] == fs[..n];
    }
  }

  /** From any state, a whole run yields its message on its last fragment and nothing before. */
  lemma RunAssembles(limit: Limit, a: Assembly, fs: seq<Bytes>, total: nat, length: nat)
    requires 0 < |fs| == total && IsRun(fs, total, length)
    requires 0 < length <= limit && |Bodies(fs)| == length
    ensures Consume(limit, After(limit, a, fs[..total - 1]), fs[total - 1]) == (Idle, Some(Bodies(fs)))
    ensures forall k :: 0 <= k < total - 1 ==> Consume(limit, After(limit, a, fs[..k]), fs[k]).1 == None
  {
    if total > 1 {
      RunPrefix(limit, a, fs, total, length, total - 1);
    } else {
      assert fs[..0] == [];
    }
    forall k | 0 <= k < total - 1 ensures Consume(limit, After(limit, a, fs[..k]), fs[k]).1 == None {
      RunPrefix(limit, a, fs, total, length, k + 1);
      assert fs[..k + 1][..k] == fs[..k];
      if k > 0 {
        RunPrefix(limit, a, fs, total, length, k);
      }
    }
  }

  lemma {:induction false} AfterAppend(limit: Limit, a: Assembly, h: seq<Bytes>, more: seq<Bytes>)
    ensures After(limit, a, h + more) == After(limit, After(limit, a, h), more)
    decreases |more|
  {
    if more == [] {
      assert h + more == h;
    } else {
      var n := |more| - 1;
      AfterAppend(limit, a, h, more[..n]);
      assert (h + more)[..|h + more| - 1] == h + more[..n];
    }
  }

  lemma RunAssemblesAfter(limit: Limit, before: seq<Bytes>, fs: seq<Bytes>, total: nat, length: nat)
    requires 0 < |fs| == total && IsRun(fs, total, length)
    requires 0 < length <= limit && |Bodies(fs)| == length
    ensures Consume(limit, After(limit, Idle, before + fs[..total - 1]), fs[total - 1]).1 == Some(Bodies(fs))
  {
    AfterAppend(limit, Idle, before, fs[..total - 1]);
    RunAssembles(limit, After(limit, Idle, before), fs, total, length);
  }

  lemma WholeMessageCompletes(limit: Limit, history: seq<Bytes>, f: Bytes, message: Bytes)
    requires IsFragment(f) && WholeMessage(limit, history + [f], message)
    ensures Consume(limit, After(limit, Idle, history), f).1 == Some(message)
  {
    var n := Total(f);
    var longer := history + [f];
    assert longer[|longer| - 1] == f;
    var fs := Last(longer, n);
    var before := history[..|history| + 1 - n];
    RunAssemblesAfter(limit, before, fs, n, Length(f));
    assert before + fs[..n - 1] == history;
    assert fs[n - 1] == f;
  }

  /** Over every history of frames, a fragment completes a message exactly when the most recent
      frames are the fragments 0..n-1 of one message, of the declared total length; the message is
      then the concatenation of their bodies. Two messages are never mixed. */
  lemma AssemblesExactlyWholeRuns(limit: Limit, history: seq<Bytes>, f: Bytes, message: Bytes)
    requires IsFragment(f)
    ensures Consume(limit, After(limit, Idle, history), f).1 == Some(message)
       <==> WholeMessage(limit, history + [f], message)
  {
    AfterTracks(limit, history);
    ConsumeTracks(limit, After(limit, Idle, history), history, f);
    if WholeMessage(limit, history + [f], message) {
      WholeMessageCompletes(limit, history, f, message);
    }
  }

  /** After every history, a message that arrives in one frame is handed on unchanged if and only if
      it does not look like a fragment, or happens to be the last fragment of itself. */
  lemma UnfragmentedDelivery(limit: Limit, history: seq<Bytes>, message: Bytes)
    ensures Consume(limit, After(limit, Idle, history), message).1 == Some(message)
       <==> !IsFragment(message) || WholeMessage(limit, history + [message], message)
  {
    hide After, WholeMessage;
    if IsFragment(message) {
      AssemblesExactlyWholeRuns(limit, history, message, message);
    }
  }

  // ----- Sender ---------------------------------------------------------------------------------

  function Join(pieces: seq<Bytes>): Bytes {
    if pieces == [] then [] else Join(pieces[..|pieces| - 1]) + pieces[|pieces| - 1]
  }

  /** A message cut into pieces of a chunk each, the last one possibly shorter. */
  function Pieces(message: Bytes, chunk: nat): (ps: seq<Bytes>)
    requires chunk > 0 && message != []
    ensures 0 < |ps| <= |message|
    ensures forall i :: 0 <= i < |ps| ==> 0 < |ps[i]| <= chunk
  {
    if |message| <= chunk then [message] else [message[..chunk]] + Pieces(message[chunk..], chunk)
  }

  lemma {:induction false} JoinFirst(p: Bytes, pieces: seq<Bytes>)
    ensures Join([p] + pieces) == p + Join(pieces)
    decreases |pieces|
  {
    var all := [p] + pieces;
    if pieces == [] {
      assert all[..0] == [];
    } else {
      var n := |pieces| - 1;
      assert all[..|all| - 1] == [p] + pieces[..n];
      JoinFirst(p, pieces[..n]);
    }
  }

  lemma {:induction false} PiecesJoin(message: Bytes, chunk: nat)
    requires chunk > 0 && message != []
    ensures Join(Pieces(message, chunk)) == message
    decreases |message|
  {
    if |message| <= chunk {
      assert [message][..0] == [];
    } else {
      PiecesJoin(message[chunk..], chunk);
      JoinFirst(message[..chunk], Pieces(message[chunk..], chunk));
    }
  }

  /** The firmware's arithmetic: how many pieces there are, and where each of them lies. */
  lemma {:induction false} PieceCount(message: Bytes, chunk: nat)
    requires chunk > 0 && message != []
    ensures |Pieces(message, chunk)| == (|message| + chunk - 1) / chunk
    decreases |message|
  {
    if |message| <= chunk {
      assert (|message| + chunk - 1) / chunk == 1 by { QuotientIs(|message| + chunk - 1, chunk, 1); }
    } else {
      var rest := message[chunk..];
      PieceCount(rest, chunk);
      QuotientStep(|rest| + chunk - 1, chunk);
    }
  }

  lemma {:induction false} PieceAt(message: Bytes, chunk: nat, i: nat)
    requires chunk > 0 && message != [] && i < |Pieces(message, chunk)|
    ensures i * chunk < |message|
    ensures var start := i * chunk;
      Pieces(message, chunk)[i]
        == message[start..if chunk < |message| - start then start + chunk else |message|]
    decreases i
  {
    if i > 0 {
      var rest := message[chunk..];
      PieceAt(rest, chunk, i - 1);
      var before := (i - 1) * chunk;
      assert i * chunk == before + chunk;
      assert Pieces(message, chunk)[i] == Pieces(rest, chunk)[i - 1];
      var end := if chunk < |rest| - before then before + chunk else |rest|;
      assert rest[before..end] == message[before + chunk..end + chunk];
    }
  }

  predicate SendablePieces(pieces: seq<Bytes>) {
    |pieces| < U16 && forall i :: 0 <= i < |pieces| ==> pieces[i] != []
  }

  function Fragment(pieces: seq<Bytes>, length: nat, i: nat): (f: Bytes)
    requires SendablePieces(pieces) && i < |pieces| && length < U16
    ensures IsFragment(f) && Body(f) == pieces[i] && |f| == HEADER + |pieces[i]|
    ensures Index(f) == i && Total(f) == |pieces| && Length(f) == length
  {
    MakeFragment(i, |pieces|, length, pieces[i])
  }

  /** The first fragments of a message cut into pieces. */
  function Fragments(pieces: seq<Bytes>, length: nat, n: nat): (fs: seq<Bytes>)
    requires SendablePieces(pieces) && n <= |pieces| && length < U16
    ensures |fs| == n
  {
    if n == 0 then [] else Fragments(pieces, length, n - 1) + [Fragment(pieces, length, n - 1)]
  }

  lemma NoFragments(pieces: seq<Bytes>, length: nat)
    requires SendablePieces(pieces) && length < U16
    ensures Fragments(pieces, length, 0) == []
  {
  }

  lemma NextFragment(pieces: seq<Bytes>, length: nat, n: nat)
    requires SendablePieces(pieces) && n < |pieces| && length < U16
    ensures Fragments(pieces, length, n + 1) == Fragments(pieces, length, n) + [Fragment(pieces, length, n)]
  {
    hide Fragment;
  }

  lemma {:induction false} FragmentsAt(pieces: seq<Bytes>, length: nat, n: nat, i: nat)
    requires SendablePieces(pieces) && i < n <= |pieces| && length < U16
    ensures Fragments(pieces, length, n)[i] == Fragment(pieces, length, i)
    decreases n
  {
    hide SendablePieces, Fragment;
    if i < n - 1 {
      FragmentsAt(pieces, length, n - 1, i);
    }
  }

  /** The sender's packets are one run carrying the pieces. */
  lemma FragmentsAreRun(pieces: seq<Bytes>, length: nat, n: nat)
    requires SendablePieces(pieces) && n <= |pieces| && length < U16
    ensures var fs := Fragments(pieces, length, n);
      IsRun(fs, |pieces|, length) && forall i :: 0 <= i < n ==> |fs[i]| == HEADER + |pieces[i]|
  {
    hide IsFragment, Index, Total, Length, Body, Fragment, SendablePieces, Fragments;
    forall i | 0 <= i < n
      ensures var f := Fragments(pieces, length, n)[i];
        IsFragment(f) && Index(f) == i && Total(f) == |pieces| && Length(f) == length && |f| == HEADER + |pieces[i]|
    {
      FragmentsAt(pieces, length, n, i);
      assert Fragment(pieces, length, i) == Fragments(pieces, length, n)[i];
    }
  }

  lemma {:induction false} FragmentBodies(pieces: seq<Bytes>, length: nat, n: nat)
    requires SendablePieces(pieces) && n <= |pieces| && length < U16
    requires IsRun(Fragments(pieces, length, n), |pieces|, length)
    ensures Bodies(Fragments(pieces, length, n)) == Join(pieces[..n])
    decreases n
  {
    hide IsFragment, Index, Total, Length, Body, Fragment, SendablePieces;
    if n > 0 {
      var fs := Fragments(pieces, length, n);
      assert fs[..n - 1] == Fragments(pieces, length, n - 1);
      assert fs[n - 1] == Fragment(pieces, length, n - 1);
      FragmentBodies(pieces, length, n - 1);
      assert pieces[..n][..n - 1] == pieces[..n - 1];
    }
  }

  /** The firmware's 16-bit arithmetic spelled out: where a piece starts, and how many there are. */
  method PieceStart(message: Frame, chunk: nat, i: nat) returns (start: nat)
    requires 0 < chunk < U16 && message != [] && i < |Pieces(message, chunk)|
    ensures start < |message|
    ensures Pieces(message, chunk)[i]
         == message[start..if chunk < |message| - start then start + chunk else |message|]
  {
    PieceAt(message, chunk, i);
    start := i * chunk;
    assert start < U16;
    start := start % U16;
  }

  method PacketCount(message: Frame, chunk: nat) returns (total: nat)
    requires 0 < chunk < U16 && message != []
    ensures total == |Pieces(message, chunk)|
  {
    PieceCount(message, chunk);
    total := (|message| + chunk - 1) / chunk;
    assert total < U16;
    total := total % U16;
  }

  method BuildPacket(message: Frame, chunk: nat, total: nat, i: nat) returns (packet: Bytes)
    requires 0 < chunk < U16 && message != [] && i < total == |Pieces(message, chunk)|
    ensures packet == Fragment(Pieces(message, chunk), |message|, i)
    ensures FirstFragments(message, chunk, i + 1) == FirstFragments(message, chunk, i) + [packet]
  {
    hide Pieces;
    var start := PieceStart(message, chunk, i);
    var len := if chunk < |message| - start then chunk else |message| - start;
    packet := [0xAA, 0x55, 0xC3, 1];
    packet := packet + [i / 256 % 256, i % 256];
    packet := packet + [total / 256 % 256, total % 256];
    packet := packet + [|message| / 256 % 256, |message| % 256];
    assert packet == Header(i, total, |message|);
    packet := packet + message[start..start + len];
    NextFragment(Pieces(message, chunk), |message|, i);
  }

  /** The first fragments of a message in pieces of a given size. */
  function FirstFragments(message: Frame, chunk: nat, n: nat): seq<Bytes>
    requires 0 < chunk < U16 && message != [] && n <= |Pieces(message, chunk)|
  {
    Fragments(Pieces(message, chunk), |message|, n)
  }

  /** The fragments of a message in order, until a notification fails. */
  method SendFragments(message: Frame, chunk: nat, fails: nat) returns (ok: bool, sent: seq<Bytes>)
    requires 0 < chunk < U16 && message != []
    ensures var pieces := Pieces(message, chunk);
      (ok <==> fails >= |pieces|)
      && sent == Fragments(pieces, |message|, if fails < |pieces| then fails + 1 else |pieces|)
  {
    hide Fragment, Fragments, Pieces, SendablePieces;
    sent := [];
    NoFragments(Pieces(message, chunk), |message|);
    var total := PacketCount(message, chunk);
    assert FirstFragments(message, chunk, 0) == [];
    var i := 0;
    while i < total
      invariant i <= total == |Pieces(message, chunk)| && i <= fails
      invariant sent == FirstFragments(message, chunk, i)
    {
      hide FirstFragments;
      var packet := BuildPacket(message, chunk, total, i);
      sent := sent + [packet];
      if i >= fails {
        break;
      }
      i := (i + 1) % U16;
    }
    ok := i == total;
  }

  /** Sending a message: the frames handed to the notification callback, in order, and whether all
      went out. `fails` is the index of the first notification that fails. */
  method SendFragmentedNotify(limit: Limit, payload: nat, message: Frame, fails: nat)
    returns (ok: bool, sent: seq<Bytes>)
    requires payload < U16
    ensures message == [] ==> ok && sent == []
    ensures |message| > limit ==> !ok && sent == []
    ensures 0 < |message| <= limit && |message| <= payload ==> (ok <==> fails > 0) && sent == [message]
    ensures payload < |message| <= limit && payload <= HEADER ==> !ok && sent == []
    ensures HEADER < payload < |message| <= limit ==>
      var pieces := Pieces(message, payload - HEADER);
      (ok <==> fails >= |pieces|)
      && sent == Fragments(pieces, |message|, if fails < |pieces| then fails + 1 else |pieces|)
    ensures HEADER < payload && message != [] && ok ==> |message| <= limit && sent == SentFrames(payload, message)
  {
    hide Fragments, Pieces;
    if message == [] {
      return true, [];
    }
    if |message| > limit {
      return false, [];
    }
    if |message| <= payload {
      return fails > 0, [message];
    }
    if payload <= HEADER {
      return false, [];
    }
    ok, sent := SendFragments(message, payload - HEADER, fails);
  }

  /** The packets of a message that all went out. */
  function SentPackets(message: Bytes, payload: nat): (fs: seq<Bytes>)
    requires HEADER < payload && 0 < |message| < U16
    ensures fs != []
  {
    var pieces := Pieces(message, payload - HEADER);
    Fragments(pieces, |message|, |pieces|)
  }

  /** The frames of a message of any length that all went out. */
  function SentFrames(payload: nat, message: Bytes): (fs: seq<Bytes>)
    requires HEADER < payload && 0 < |message| < U16
    ensures fs != []
  {
    if |message| <= payload then [message] else SentPackets(message, payload)
  }

  lemma SentPacketsAreRun(message: Bytes, payload: nat)
    requires HEADER < payload && 0 < |message| < U16
    ensures var fs := SentPackets(message, payload);
      && IsRun(fs, |fs|, |message|) && Bodies(fs) == message
      && forall i :: 0 <= i < |fs| ==> |fs[i]| <= payload
  {
    hide Pieces, Bodies, Fragments, IsFragment;
    var pieces := Pieces(message, payload - HEADER);
    FragmentsAreRun(pieces, |message|, |pieces|);
    FragmentBodies(pieces, |message|, |pieces|);
    PiecesJoin(message, payload - HEADER);
    assert pieces[..|pieces|] == pieces;
  }

  /** Round trip: whatever the assembler was doing, the packets of any fragmented message make it
      return the message with the last packet and nothing before, and every packet fits the payload. */
  lemma FragmentedRoundTrip(limit: Limit, a: Assembly, payload: nat, message: Bytes)
    requires HEADER < payload && 0 < |message| <= limit
    ensures var fs := SentPackets(message, payload); var total := |fs|;
      && (forall i :: 0 <= i < total ==> |fs[i]| <= payload)
      && (forall k :: 0 <= k < total - 1 ==> Consume(limit, After(limit, a, fs[..k]), fs[k]).1 == None)
      && Consume(limit, After(limit, a, fs[..total - 1]), fs[total - 1]) == (Idle, Some(message))
  {
    SentPacketsAreRun(message, payload);
    var fs := SentPackets(message, payload);
    RunAssembles(limit, a, fs, |fs|, |message|);
  }

  /** What an assembler with a history yields for the last of some further frames. */
  function Received(limit: Limit, history: seq<Bytes>, fs: seq<Bytes>): Option<Bytes>
    requires fs != []
  {
    Consume(limit, After(limit, Idle, history + fs[..|fs| - 1]), fs[|fs| - 1]).1
  }

  /** From sender to receiver: whatever frames came before, a message is received with its last frame
      if and only if it is long enough to be fragmented, or does not look like a fragment, or
      happens to be the last fragment of itself. */
  lemma ReceivedIff(limit: Limit, history: seq<Bytes>, payload: nat, message: Bytes)
    requires HEADER < payload && 0 < |message| <= limit
    ensures Received(limit, history, SentFrames(payload, message)) == Some(message)
       <==> |message| > payload || !IsFragment(message) || WholeMessage(limit, history + [message], message)
  {
    hide WholeMessage, IsFragment;
    if |message| <= payload {
      UnfragmentedDelivery(limit, history, message);
      assert [message][..0] == [] && history + [] == history;
    } else {
      var fs := SentPackets(message, payload);
      FragmentedRoundTrip(limit, After(limit, Idle, history), payload, message);
      AfterAppend(limit, Idle, history, fs[..|fs| - 1]);
    }
  }

  /** Such messages exist: this one of eleven bytes goes out as one frame, is dropped by an idle
      assembler, and is received when its own first ten bytes came as the first fragment before it. */
  lemma LooksLikeFragment()
    ensures var message := MakeFragment(1, 2, 11, [1]);
      && SentFrames(FALLBACK_PAYLOAD, message) == [message]
      && Received(2048, [], [message]) == None
      && Received(2048, [MakeFragment(0, 2, 11, message[..10])], [message]) == Some(message)
  {
    var message := MakeFragment(1, 2, 11, [1]);
    var first := MakeFragment(0, 2, 11, message[..10]);
    assert message[..10] + [1] == message;
    hide MakeFragment;
    var none: seq<Bytes> := [];
    assert [message][..0] == none && none + none == none && [first] + none == [first] && [first][..0] == none;
    assert After(2048, Idle, [first]) == Assembling(11, 2, 1, message[..10]);
  }

  // ----- Payload size ---------------------------------------------------------------------------

  function RecordWrite(limit: Limit, payload: nat, len: nat): nat {
    if len > payload && len <= limit then len else payload
  }

  function PayloadAfter(limit: Limit, lengths: seq<nat>): nat {
    if lengths == [] then FALLBACK_PAYLOAD
    else RecordWrite(limit, PayloadAfter(limit, lengths[..|lengths| - 1]), lengths[|lengths| - 1])
  }

  /** Over every history of writes the payload size stays usable for fragmenting, and it is the
      longest write seen that a message may have. */
  lemma {:induction false} PayloadUsable(limit: Limit, lengths: seq<nat>)
    ensures var p := PayloadAfter(limit, lengths);
      && HEADER < FALLBACK_PAYLOAD <= p < U16
      && (p == FALLBACK_PAYLOAD || (p in lengths && p <= limit))
      && forall i :: 0 <= i < |lengths| && lengths[i] <= limit ==> lengths[i] <= p
    decreases |lengths|
  {
    if lengths != [] {
      PayloadUsable(limit, lengths[..|lengths| - 1]);
    }
  }
}
