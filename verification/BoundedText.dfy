/** Text accepted in commands: UTF-8 of bounded length without ASCII control characters. */
module BoundedText {
  import opened Wrappers

  type Bytes = seq<byte>

  /** A Unicode scalar value: a code point that is no surrogate. */
  type Scalar = v: int | 0 <= v <= 0x10FFFF && !(0xD800 <= v <= 0xDFFF)

  // ----- The encoding of section 3 of RFC 3629 --------------------------------------------------

  function EncodeScalar(v: Scalar): (b: Bytes)
    ensures 1 <= |b| <= 4
  {
    var (v1, v2, v3) := (v / 64, v / 64 / 64, v / 64 / 64 / 64);
    if v < 0x80 then [v]
    else if v < 0x800 then [0xC0 + v1, 0x80 + v % 64]
    else if v < 0x10000 then [0xE0 + v2, 0x80 + v1 % 64, 0x80 + v % 64]
    else [0xF0 + v3, 0x80 + v2 % 64, 0x80 + v1 % 64, 0x80 + v % 64]
  }

  function Encode(vs: seq<Scalar>): Bytes {
    if vs == [] then [] else EncodeScalar(vs[0]) + Encode(vs[1..])
  }

  // ----- Decoding, following the byte ranges of section 4 of RFC 3629 ---------------------------

  predicate IsContinuation(b: byte) {
    0x80 <= b <= 0xBF
  }

  /** The second byte may be narrower than a continuation: no overlong forms, no surrogates, nothing
      above U+10FFFF. */
  predicate SecondAllowed(first: byte, second: byte) {
    && IsContinuation(second)
    && (first == 0xE0 ==> second >= 0xA0) && (first == 0xED ==> second <= 0x9F)
    && (first == 0xF0 ==> second >= 0x90) && (first == 0xF4 ==> second <= 0x8F)
  }

  function SequenceLength(first: byte): (n: nat)
    ensures n <= 4
  {
    if first <= 0x7F then 1
    else if 0xC2 <= first <= 0xDF then 2
    else if 0xE0 <= first <= 0xEF then 3
    else if 0xF0 <= first <= 0xF4 then 4
    else 0
  }

  /** The first scalar value of some bytes, if they start with one. */
  function DecodeScalar(b: Bytes): (r: Option<Scalar>)
    ensures r.Some? ==> b != [] && 1 <= SequenceLength(b[0]) <= |b|
  {
    if b == [] || SequenceLength(b[0]) == 0 || |b| < SequenceLength(b[0]) then None
    else
      var n := SequenceLength(b[0]);
      if n == 1 then Some(b[0])
      else if !SecondAllowed(b[0], b[1]) then None
      else if n == 2 then Some(Shifted(b[0] as int - 0xC0, b[1]))
      else if !IsContinuation(b[2]) then None
      else if n == 3 then Some(Shifted(Shifted(b[0] as int - 0xE0, b[1]), b[2]))
      else if !IsContinuation(b[3]) then None
      else Some(Shifted(Shifted(Shifted(b[0] as int - 0xF0, b[1]), b[2]), b[3]))
  }

  /** Six more bits from a continuation byte. */
  function Shifted(high: int, b: byte): (v: int)
    ensures IsContinuation(b) ==> v / 64 == high && v % 64 == b as int - 0x80
  {
    high * 64 + (b as int - 0x80)
  }

  function Decode(b: Bytes): Option<seq<Scalar>> {
    if b == [] then Some([])
    else match DecodeScalar(b)
      case None => None
      case Some(v) =>
        match Decode(b[SequenceLength(b[0])..])
        case None => None
        case Some(vs) => Some([v] + vs)
  }

  /** What decodes to a scalar value is its encoding. */
  lemma DecodedIsEncoding(b: Bytes)
    requires DecodeScalar(b).Some?
    ensures b[..SequenceLength(b[0])] == EncodeScalar(DecodeScalar(b).value)
  {
    var n := SequenceLength(b[0]);
    var v := DecodeScalar(b).value;
    if n == 2 {
      assert 0x80 <= v < 0x800;
    } else if n == 3 {
      assert 0x800 <= v < 0x10000;
    } else if n == 4 {
      assert 0x10000 <= v;
    }
  }

  lemma ShiftedBack(v: int)
    requires v >= 0
    ensures IsContinuation(0x80 + v % 64) && Shifted(v / 64, 0x80 + v % 64) == v
  {
  }

  /** An encoded scalar value decodes to itself, whatever follows. */
  lemma EncodingDecodes(v: Scalar, rest: Bytes)
    ensures DecodeScalar(EncodeScalar(v) + rest) == Some(v)
    ensures SequenceLength(EncodeScalar(v)[0]) == |EncodeScalar(v)|
  {
    hide Shifted;
    ShiftedBack(v);
    ShiftedBack(v / 64);
    ShiftedBack(v / 64 / 64);
    var b := EncodeScalar(v) + rest;
    assert forall i :: 0 <= i < |EncodeScalar(v)| ==> b[i] == EncodeScalar(v)[i];
  }

  /** Decoding and encoding undo each other: the decoder accepts exactly the encodings. */
  lemma {:induction false} DecodeIff(b: Bytes, vs: seq<Scalar>)
    ensures Decode(b) == Some(vs) <==> Encode(vs) == b
    decreases |b| + |vs|
  {
    hide DecodeScalar, EncodeScalar, SequenceLength;
    if b == [] || vs == [] {
      if vs != [] {
        assert |Encode(vs)| >= |EncodeScalar(vs[0])|;
      }
    } else {
      if Encode(vs) == b {
        EncodingDecodes(vs[0], Encode(vs[1..]));
        assert b[|EncodeScalar(vs[0])|..] == Encode(vs[1..]);
        DecodeIff(Encode(vs[1..]), vs[1..]);
        assert [vs[0]] + vs[1..] == vs;
      }
      if Decode(b) == Some(vs) {
        var n := SequenceLength(b[0]);
        DecodedIsEncoding(b);
        var tail := Decode(b[n..]).value;
        assert vs[1..] == tail;
        DecodeIff(b[n..], vs[1..]);
        assert b == b[..n] + b[n..];
      }
    }
  }

  // ----- The validator --------------------------------------------------------------------------

  predicate Printable(vs: seq<Scalar>) {
    forall i :: 0 <= i < |vs| ==> vs[i] >= 0x20 && vs[i] != 0x7F
  }

  /** Bounded text: the UTF-8 encoding of 1 to N scalar values, none below U+0020 and none U+007F. */
  ghost predicate IsBoundedText(b: Bytes, maximum: nat) {
    exists vs: seq<Scalar> :: 1 <= |vs| <= maximum && Printable(vs) && Encode(vs) == b
  }

  /** What decoding the rest must still yield after `read` scalar values. */
  predicate RestFits(rest: Bytes, read: nat, maximum: nat) {
    Decode(rest).Some? && Printable(Decode(rest).value) && read + |Decode(rest).value| <= maximum
  }

  lemma BoundedTextIff(b: Bytes, maximum: nat)
    ensures IsBoundedText(b, maximum) <==> b != [] && RestFits(b, 0, maximum)
  {
    if IsBoundedText(b, maximum) {
      var vs: seq<Scalar> :| 1 <= |vs| <= maximum && Printable(vs) && Encode(vs) == b;
      DecodeIff(b, vs);
    }
    if b != [] && RestFits(b, 0, maximum) {
      DecodeIff(b, Decode(b).value);
    }
  }

  /** One more scalar value read. */
  lemma RestStep(rest: Bytes, read: nat, maximum: nat)
    requires rest != []
    ensures RestFits(rest, read, maximum) <==>
      && DecodeScalar(rest).Some? && Printable([DecodeScalar(rest).value])
      && RestFits(rest[SequenceLength(rest[0])..], read + 1, maximum)
  {
    if DecodeScalar(rest).Some? && Decode(rest[SequenceLength(rest[0])..]).Some? {
      var v := DecodeScalar(rest).value;
      var vs := Decode(rest[SequenceLength(rest[0])..]).value;
      assert Decode(rest) == Some([v] + vs);
      assert ([v] + vs)[0] == v && ([v] + vs)[1..] == vs;
      assert Printable([v] + vs) <==> Printable([v]) && Printable(vs);
    }
  }

  /** Length of the well-formed sequence at an index, or nothing where the source returns false. */
  method CheckSequence(value: Bytes, index: nat) returns (length: Option<nat>)
    requires index < |value|
    ensures length.Some? <==>
      DecodeScalar(value[index..]).Some? && Printable([DecodeScalar(value[index..]).value])
    ensures length.Some? ==> length.value == SequenceLength(value[index])
  {
    ghost var rest := value[index..];
    var first := value[index];
    var n;
    if first <= 0x7F {
      if first < 0x20 || first == 0x7F {
        assert rest[0] == first && DecodeScalar(rest) == Some(first);
        assert [first][0] == first;
        return None;
      }
      n := 1;
    } else if first >= 0xC2 && first <= 0xDF {
      n := 2;
    } else if first >= 0xE0 && first <= 0xEF {
      n := 3;
    } else if first >= 0xF0 && first <= 0xF4 {
      n := 4;
    } else {
      return None;
    }
    if index + n > |value| {
      return None;
    }
    var offset := 1;
    while offset < n
      invariant 1 <= offset <= n
      invariant forall k :: 1 <= k < offset ==> IsContinuation(rest[k])
    {
      if !IsContinuation(value[index + offset]) {
        assert !IsContinuation(rest[offset]);
        return None;
      }
      offset := offset + 1;
    }
    if n == 3 {
      var second := value[index + 1];
      if (first == 0xE0 && second < 0xA0) || (first == 0xED && second > 0x9F) {
        return None;
      }
    }
    if n == 4 {
      var second := value[index + 1];
      if (first == 0xF0 && second < 0x90) || (first == 0xF4 && second > 0x8F) {
        return None;
      }
    }
    return Some(n);
  }

  method IsValidBoundedText(value: Bytes, maximum: nat) returns (ok: bool)
    ensures ok <==> IsBoundedText(value, maximum)
  {
    BoundedTextIff(value, maximum);
    if value == [] {
      return false;
    }
    var codePoints := 0;
    var index := 0;
    while index < |value|
      invariant index <= |value| && codePoints <= maximum
      invariant RestFits(value, 0, maximum) <==> RestFits(value[index..], codePoints, maximum)
      decreases |value| - index
    {
      RestStep(value[index..], codePoints, maximum);
      var length := CheckSequence(value, index);
      if length == None {
        return false;
      }
      assert value[index..][length.value..] == value[index + length.value..];
      index := index + length.value;
      codePoints := codePoints + 1;
      if codePoints > maximum {
        return false;
      }
    }
    return true;
  }
}
