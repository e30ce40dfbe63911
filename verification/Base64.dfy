/** Base 64, section 4 of RFC 4648: the encoder of the handshake key and the encoder of the expected
    accept value are written differently and must agree. */
module Base64 {
  import opened Wrappers
  import opened Arithmetic

  type Bytes = seq<byte>

  type Sextet = x: int | 0 <= x < 64

  function Digit(x: Sextet): (c: char)
    ensures c != '='
  {
    if x < 26 then 'A' + x as char
    else if x < 52 then 'a' + (x - 26) as char
    else if x < 62 then '0' + (x - 52) as char
    else if x == 62 then '+' else '/'
  }

  function Value(c: char): Sextet {
    if 'A' <= c <= 'Z' then (c - 'A') as int
    else if 'a' <= c <= 'z' then (c - 'a') as int + 26
    else if '0' <= c <= '9' then (c - '0') as int + 52
    else if c == '+' then 62 else 63
  }

  lemma ValueOfDigit(x: Sextet)
    ensures Value(Digit(x)) == x
  {
  }

  /** Three bytes read as one number of 24 bits, most significant first. */
  function Packed(a: byte, b: byte, c: byte): nat { (a as int) * 65536 + (b as int) * 256 + c }

  /** The four digits of three bytes: six bits at a time, most significant first. */
  function Group(a: byte, b: byte, c: byte): (s: string)
    ensures |s| == 4 && s[2] != '=' && s[3] != '='
  {
    var n := Packed(a, b, c);
    [Digit(n / 262144 % 64), Digit(n / 4096 % 64), Digit(n / 64 % 64), Digit(n % 64)]
  }

  /** The bytes of the next group; the padding digits of a short group stand for no byte. */
  function GroupText(b: Bytes): (s: string)
    requires b != []
    ensures |s| == 4
  {
    var s := Group(b[0], if |b| > 1 then b[1] else 0, if |b| > 2 then b[2] else 0);
    [s[0], s[1], if |b| > 1 then s[2] else '=', if |b| > 2 then s[3] else '=']
  }

  function Encode(b: Bytes): string
    decreases |b|
  {
    if b == [] then "" else GroupText(b) + Encode(if |b| > 3 then b[3..] else [])
  }

  // ----- Decoding -------------------------------------------------------------------------------

  /** The number written by four digits. */
  function Number(s: string): nat
    requires |s| == 4
  {
    Value(s[0]) * 262144 + Value(s[1]) * 4096 + Value(s[2]) * 64 + Value(s[3])
  }

  function Unpacked(n: nat): (b: Bytes)
    ensures |b| == 3
  {
    [n / 65536 % 256, n / 256 % 256, n % 256]
  }

  function GroupBytes(s: string): Bytes
    requires |s| == 4
  {
    if s[2] == '=' then Unpacked(Number([s[0], s[1], 'A', 'A']))[..1]
    else if s[3] == '=' then Unpacked(Number([s[0], s[1], s[2], 'A']))[..2]
    else Unpacked(Number(s))
  }

  function Decode(s: string): Bytes {
    if |s| < 4 then [] else GroupBytes(s[..4]) + Decode(s[4..])
  }

  lemma NumberOfGroup(a: byte, b: byte, c: byte)
    ensures Number(Group(a, b, c)) == Packed(a, b, c)
  {
    var n := Packed(a, b, c);
    DigitsOf(n);
    hide Digit, Value, Packed;
    ValueOfDigit(n / 262144 % 64);
    ValueOfDigit(n / 4096 % 64);
    ValueOfDigit(n / 64 % 64);
    ValueOfDigit(n % 64);
  }

  lemma DigitsOf(n: nat)
    requires n < 16777216
    ensures n == n / 262144 % 64 * 262144 + n / 4096 % 64 * 4096 + n / 64 % 64 * 64 + n % 64
  {
    var m := n / 64;
    var k := m / 64;
    QuotientIs(n, 4096, k);
    QuotientIs(n, 262144, k / 64);
  }

  lemma UnpackedPacked(a: byte, b: byte, c: byte)
    ensures Unpacked(Packed(a, b, c)) == [a, b, c]
  {
    var n := Packed(a, b, c);
    QuotientIs(n, 256, (a as int) * 256 + b);
    QuotientIs(n, 65536, a);
  }

  lemma GroupTextDecodes(b: Bytes)
    requires b != []
    ensures GroupBytes(GroupText(b)) == if |b| > 3 then b[..3] else b
  {
    var (y, z) := (if |b| > 1 then b[1] else 0, if |b| > 2 then b[2] else 0);
    var g := Group(b[0], y, z);
    NumberOfGroup(b[0], y, z);
    UnpackedPacked(b[0], y, z);
    PaddingIsZero(b[0], y);
    hide Number, Unpacked, Packed, Digit, Value, Group;
    var s := GroupText(b);
    assert |b| > 2 ==> s == g;
    assert |b| == 2 ==> [s[0], s[1], s[2], 'A'] == g;
    assert |b| == 1 ==> [s[0], s[1], 'A', 'A'] == g;
  }

  /** Absent bytes only fill the digits that are written as padding. */
  lemma PaddingIsZero(a: byte, b: byte)
    ensures Group(a, b, 0)[3] == 'A' && (b == 0 ==> Group(a, b, 0)[2] == 'A')
  {
    BytewiseSextets(a, b, 0);
    hide Packed;
  }

  /** Decoding undoes encoding. */
  lemma {:induction false} RoundTrip(b: Bytes)
    ensures Decode(Encode(b)) == b
    decreases |b|
  {
    hide GroupText, GroupBytes;
    if b != [] {
      var rest := if |b| > 3 then b[3..] else [];
      GroupTextDecodes(b);
      RoundTrip(rest);
      var s := Encode(b);
      assert s[..4] == GroupText(b) && s[4..] == Encode(rest);
    }
  }

  /** Distinct byte strings have distinct encodings. */
  lemma EncodeInjective(a: Bytes, b: Bytes)
    requires Encode(a) == Encode(b)
    ensures a == b
  {
    RoundTrip(a);
    RoundTrip(b);
  }

  lemma GroupBytewise(a: byte, b: byte, c: byte)
    ensures Group(a, b, c) == [Digit(a / 4), Digit(a % 4 * 16 + b / 16), Digit(b % 16 * 4 + c / 64), Digit(c % 64)]
  {
    BytewiseSextets(a, b, c);
    hide Digit, Packed;
  }

  lemma FooAndBar()
    ensures Group(102, 111, 111) == "Zm9v" && Group(98, 97, 114) == "YmFy"
  {
    GroupBytewise(102, 111, 111);
    GroupBytewise(98, 97, 114);
    hide Group;
  }

  lemma FAndFo()
    ensures Group(102, 0, 0)[..2] == "Zg" && Group(102, 111, 0)[..3] == "Zm8"
  {
    GroupBytewise(102, 0, 0);
    GroupBytewise(102, 111, 0);
    hide Group;
  }

  /** Test vectors of section 10 of RFC 4648: "f", "fo", "foo" and "foobar". */
  lemma TestVectors()
    ensures Encode([102]) == "Zg==" && Encode([102, 111]) == "Zm8=" && Encode([102, 111, 111]) == "Zm9v"
    ensures Encode([102, 111, 111, 98, 97, 114]) == "Zm9vYmFy"
  {
    FooAndBar();
    FAndFo();
    hide Group;
    OneGroup([102]);
    OneGroup([102, 111]);
    OneGroup([102, 111, 111]);
    OneGroup([98, 97, 114]);
    assert [102, 111, 111, 98, 97, 114][3..] == [98, 97, 114];
    assert GroupText([102, 111, 111, 98, 97, 114]) == "Zm9v";
  }

  lemma OneGroup(b: Bytes)
    requires 0 < |b| <= 3
    ensures Encode(b) == GroupText(b)
  {
    hide GroupText;
    assert Encode([]) == "" && GroupText(b) + "" == GroupText(b);
  }

  // ----- The two encoders -----------------------------------------------------------------------

  /** Masking and shifting single bytes takes the same six bits as shifting the packed number. */
  lemma BytewiseSextets(a: byte, b: byte, c: byte)
    ensures var n := Packed(a, b, c);
      && n / 262144 % 64 == a / 4 && n / 4096 % 64 == a % 4 * 16 + b / 16
      && n / 64 % 64 == b % 16 * 4 + c / 64 && n % 64 == c % 64
  {
    var (x, y, z) := (a as int, b as int, c as int);
    FirstSextet(x, y, z);
    SecondSextet(x, y, z);
    ThirdSextet(x, y, z);
    LastSextet(x, y, z);
    assert Packed(a, b, c) == x * 65536 + y * 256 + z;
    hide Packed;
  }

  lemma FirstSextet(x: byte, y: byte, z: byte)
    ensures ((x as int) * 65536 + (y as int) * 256 + z) / 262144 % 64 == x / 4
  {
    QuotientIs((x as int) * 65536 + (y as int) * 256 + z, 262144, x / 4);
  }

  lemma SecondSextet(x: byte, y: byte, z: byte)
    ensures ((x as int) * 65536 + (y as int) * 256 + z) / 4096 % 64 == x % 4 * 16 + y / 16
  {
    var q := (x as int) * 16 + y / 16;
    QuotientIs((x as int) * 65536 + (y as int) * 256 + z, 4096, q);
    QuotientIs(q, 64, x / 4);
  }

  lemma ThirdSextet(x: byte, y: byte, z: byte)
    ensures ((x as int) * 65536 + (y as int) * 256 + z) / 64 % 64 == y % 16 * 4 + z / 64
  {
    var q := (x as int) * 1024 + (y as int) * 4 + z / 64;
    QuotientIs((x as int) * 65536 + (y as int) * 256 + z, 64, q);
    QuotientIs(q, 64, (x as int) * 16 + y / 16);
  }

  lemma LastSextet(x: byte, y: byte, z: byte)
    ensures ((x as int) * 65536 + (y as int) * 256 + z) % 64 == z % 64
  {
  }

  /** The key encoder's group: up to three bytes, each digit masked and shifted out of its bytes. */
  method EncodeKeyGroup(chunk: Bytes) returns (text: string)
    requires chunk != []
    ensures text == GroupText(chunk)
  {
    var i0 := chunk[0];
    var i1 := if |chunk| > 1 then chunk[1] else 0;
    var i2 := if |chunk| > 2 then chunk[2] else 0;
    BytewiseSextets(i0, i1, i2);
    hide Digit, Packed;
    text := [Digit(i0 / 4), Digit(i0 % 4 * 16 + i1 / 16),
             if |chunk| >= 2 then Digit(i1 % 16 * 4 + i2 / 64) else '=', if |chunk| >= 3 then Digit(i2 % 64) else '='];
  }

  method EncodeKey(data: Bytes) returns (encoded: string)
    ensures encoded == Encode(data)
  {
    hide GroupText;
    encoded := "";
    var offset := 0;
    assert data[0..] == data;
    while offset < |data|
      invariant 0 <= offset <= |data| && encoded + Encode(data[offset..]) == Encode(data)
    {
      var chunkSize := if |data| - offset < 3 then |data| - offset else 3;
      var chunk := data[offset..offset + chunkSize];
      var text := EncodeKeyGroup(chunk);
      EncodeChunk(data[offset..], chunk);
      assert data[offset..][chunkSize..] == data[offset + chunkSize..];
      encoded := encoded + text;
      offset := offset + chunkSize;
    }
  }

  lemma EncodeChunk(b: Bytes, chunk: Bytes)
    requires b != [] && chunk == if |b| < 3 then b else b[..3]
    ensures Encode(b) == GroupText(chunk) + Encode(b[|chunk|..])
  {
    hide Digit, Packed, Group;
  }

  /** The accept encoder: packs three bytes into 24 bits and takes six bits at a time. */
  method EncodeDigest(data: Bytes) returns (output: string)
    ensures output == Encode(data)
  {
    hide Digit;
    output := "";
    var offset := 0;
    assert data[0..] == data;
    while offset < |data|
      invariant 0 <= offset
      invariant output + Encode(if offset < |data| then data[offset..] else []) == Encode(data)
    {
      var first := data[offset];
      var second := if offset + 1 < |data| then data[offset + 1] else 0;
      var third := if offset + 2 < |data| then data[offset + 2] else 0;
      var group := Packed(first, second, third);
      hide Packed;
      var text := [Digit(group / 262144 % 64), Digit(group / 4096 % 64),
                   if offset + 1 < |data| then Digit(group / 64 % 64) else '=',
                   if offset + 2 < |data| then Digit(group % 64) else '='];
      assert text == GroupText(data[offset..]) by { hide Encode; }
      hide GroupText;
      assert |data| > offset + 3 ==> data[offset..][3..] == data[offset + 3..];
      output := output + text;
      offset := offset + 3;
    }
  }
}
