/** The codecs under the signed links: UTF-8 (section 3 of RFC 3629) and unpadded base64url
    (sections 5 and 3.2 of RFC 4648), with the lenient decoder that Python's base64 module uses. */
module TextCodec {
  import opened Wrappers

  type Byte = b: nat | b < 256

  // ---- UTF-8 ----

  function EncodeChar(c: char): seq<Byte> {
    var n := c as int;
    if n < 0x80 then [n]
    else if n < 0x800 then [0xC0 + n / 64, 0x80 + n % 64]
    else if n < 0x10000 then [0xE0 + n / 64 / 64, 0x80 + n / 64 % 64, 0x80 + n % 64]
    else [0xF0 + n / 64 / 64 / 64, 0x80 + n / 64 / 64 % 64, 0x80 + n / 64 % 64, 0x80 + n % 64]
  }

  function EncodeUtf8(s: string): seq<Byte> {
    if s == "" then [] else EncodeChar(s[0]) + EncodeUtf8(s[1..])
  }

  predicate IsContinuation(b: Byte) {
    0x80 <= b < 0xC0
  }

  /** The first character and its length in bytes; overlong forms, surrogates and values past
      U+10FFFF are refused. */
  function DecodeChar(b: seq<Byte>): (r: Option<(char, nat)>)
    requires b != []
    ensures r.Some? ==> 1 <= r.value.1 <= |b|
  {
    var b0: int, b1: int, b2: int, b3: int :=
      b[0], if |b| > 1 then b[1] else 0, if |b| > 2 then b[2] else 0, if |b| > 3 then b[3] else 0;
    if b0 < 0x80 then Some((b0 as char, 1))
    else if 0xC0 <= b0 < 0xE0 && IsContinuation(b1) then
      var n := (b0 - 0xC0) * 64 + (b1 - 0x80);
      if n < 0x80 then None else Some((n as char, 2))
    else if 0xE0 <= b0 < 0xF0 && IsContinuation(b1) && IsContinuation(b2) then
      var n := (b0 - 0xE0) * 4096 + (b1 - 0x80) * 64 + (b2 - 0x80);
      if n < 0x800 || 0xD800 <= n < 0xE000 then None else Some((n as char, 3))
    else if 0xF0 <= b0 < 0xF8 && IsContinuation(b1) && IsContinuation(b2) && IsContinuation(b3) then
      var n := (b0 - 0xF0) * 262144 + (b1 - 0x80) * 4096 + (b2 - 0x80) * 64 + (b3 - 0x80);
      if n < 0x10000 || n >= 0x110000 then None else Some((n as char, 4))
    else None
  }

  function DecodeUtf8(b: seq<Byte>): Option<string>
    decreases |b|
  {
    if b == [] then Some("") else
    match DecodeChar(b)
    case None => None
    case Some((c, n)) =>
      match DecodeUtf8(b[n..])
      case None => None
      case Some(s) => Some([c] + s)
  }

  lemma DecodeEncodedChar(c: char, rest: seq<Byte>)
    ensures DecodeChar(EncodeChar(c) + rest) == Some((c, |EncodeChar(c)|))
  {
    hide DecodeChar;
    var n := c as int;
    SixBits(n);
    if n < 0x80 {
      DecodeAscii(n, rest);
    } else if n < 0x800 {
      DecodeTwo(n / 64, n % 64, rest);
    } else if n < 0x10000 {
      DecodeThree(n / 64 / 64, n / 64 % 64, n % 64, rest);
    } else {
      DecodeFour(n / 64 / 64 / 64, n / 64 / 64 % 64, n / 64 % 64, n % 64, rest);
    }
  }

  lemma SixBits(n: nat)
    ensures n == n / 64 * 64 + n % 64
    ensures n == n / 64 / 64 * 4096 + n / 64 % 64 * 64 + n % 64
    ensures n == n / 64 / 64 / 64 * 262144 + n / 64 / 64 % 64 * 4096 + n / 64 % 64 * 64 + n % 64
  {
    var q := n / 64;
    var p := q / 64;
    assert n == q * 64 + n % 64 && q == p * 64 + q % 64 && p == p / 64 * 64 + p % 64;
  }

  lemma DecodeAscii(x: nat, rest: seq<Byte>)
    requires x < 0x80
    ensures DecodeChar([x] + rest) == Some((x as char, 1))
  {
  }

  lemma DecodeTwo(x: nat, y: nat, rest: seq<Byte>)
    requires x < 32 && y < 64 && x * 64 + y >= 0x80
    ensures DecodeChar([0xC0 + x, 0x80 + y] + rest) == Some(((x * 64 + y) as char, 2))
  {
  }

  lemma DecodeThree(x: nat, y: nat, z: nat, rest: seq<Byte>)
    requires x < 16 && y < 64 && z < 64
    requires var n := x * 4096 + y * 64 + z; n >= 0x800 && !(0xD800 <= n < 0xE000)
    ensures DecodeChar([0xE0 + x, 0x80 + y, 0x80 + z] + rest) == Some(((x * 4096 + y * 64 + z) as char, 3))
  {
  }

  lemma DecodeFour(x: nat, y: nat, z: nat, w: nat, rest: seq<Byte>)
    requires x < 8 && y < 64 && z < 64 && w < 64
    requires var n := x * 262144 + y * 4096 + z * 64 + w; 0x10000 <= n < 0x110000
    ensures DecodeChar([0xF0 + x, 0x80 + y, 0x80 + z, 0x80 + w] + rest)
              == Some(((x * 262144 + y * 4096 + z * 64 + w) as char, 4))
  {
  }

  lemma {:induction false} Utf8RoundTrip(s: string)
    ensures DecodeUtf8(EncodeUtf8(s)) == Some(s)
  {
    hide DecodeChar, EncodeChar;
    if s != "" {
      var c, rest := EncodeChar(s[0]), EncodeUtf8(s[1..]);
      Utf8RoundTrip(s[1..]);
      DecodeEncodedChar(s[0], rest);
      assert (c + rest)[|c|..] == rest;
      assert s == [s[0]] + s[1..];
    }
  }

  // ---- base64url ----

  function Letter(v: nat): char
    requires v < 64
  {
    if v < 26 then 'A' + v as char
    else if v < 52 then 'a' + (v - 26) as char
    else if v < 62 then '0' + (v - 52) as char
    else if v == 62 then '-' else '_'
  }

  /** base64.urlsafe_b64encode(b).rstrip("=") */
  function Encode(b: seq<Byte>): string {
    if b == [] then ""
    else if |b| == 1 then [Letter(b[0] / 4), Letter(b[0] % 4 * 16)]
    else if |b| == 2 then [Letter(b[0] / 4), Letter(b[0] % 4 * 16 + b[1] / 16), Letter(b[1] % 16 * 4)]
    else [Letter(b[0] / 4), Letter(b[0] % 4 * 16 + b[1] / 16), Letter(b[1] % 16 * 4 + b[2] / 64), Letter(b[2] % 64)]
         + Encode(b[3..])
  }

  /** The value of a letter; both alphabets are read, since only "-" and "_" are translated. */
  function Value(c: char): (r: Option<nat>)
    ensures r.Some? ==> r.value < 64
  {
    if 'A' <= c <= 'Z' then Some(c as int - 'A' as int)
    else if 'a' <= c <= 'z' then Some(c as int - 'a' as int + 26)
    else if '0' <= c <= '9' then Some(c as int - '0' as int + 52)
    else if c == '-' || c == '+' then Some(62)
    else if c == '_' || c == '/' then Some(63)
    else None
  }

  function Prepend(b: Byte, rest: Option<seq<Byte>>): Option<seq<Byte>> {
    match rest case None => None case Some(bs) => Some([b] + bs)
  }

  /** binascii.a2b_base64 without strict mode: foreign characters are skipped, a sufficient run of
      "=" ends the data, and an incomplete last group is an error. */
  function Decode(s: string, group: nat, left: nat, pads: nat): Option<seq<Byte>>
    requires group < 4 && left < 64 && (group == 2 ==> left < 16) && (group == 3 ==> left < 4)
    decreases |s|
  {
    if s == "" then if group == 0 then Some([]) else None
    else if s[0] == '=' then
      if group >= 2 && group + pads + 1 >= 4 then Some([])
      else Decode(s[1..], group, left, if group >= 2 then pads + 1 else pads)
    else match Value(s[0])
      case None => Decode(s[1..], group, left, pads)
      case Some(v) =>
        if group == 0 then Decode(s[1..], 1, v, 0)
        else if group == 1 then Prepend(left * 4 + v / 16, Decode(s[1..], 2, v % 16, 0))
        else if group == 2 then Prepend(left * 16 + v / 4, Decode(s[1..], 3, v % 4, 0))
        else Prepend(left * 64 + v, Decode(s[1..], 0, 0, 0))
  }

  function Padding(n: nat): string {
    if n == 0 then "" else "=" + Padding(n - 1)
  }

  /** urlsafe_b64decode(s + "=" * (-len(s) % 4)) */
  function DecodePadded(s: string): Option<seq<Byte>> {
    Decode(s + Padding((4 - |s| % 4) % 4), 0, 0, 0)
  }

  lemma LetterValue(v: nat)
    requires v < 64
    ensures Value(Letter(v)) == Some(v) && Letter(v) != '='
  {
  }

  /** A letter that comes next is read as its value. */
  lemma DecodeLetter(s: string, v: nat, group: nat, left: nat, pads: nat)
    requires s != "" && v < 64 && s[0] == Letter(v)
    requires group < 4 && left < 64 && (group == 2 ==> left < 16) && (group == 3 ==> left < 4)
    ensures Decode(s, group, left, pads) ==
              if group == 0 then Decode(s[1..], 1, v, 0)
              else if group == 1 then Prepend(left * 4 + v / 16, Decode(s[1..], 2, v % 16, 0))
              else if group == 2 then Prepend(left * 16 + v / 4, Decode(s[1..], 3, v % 4, 0))
              else Prepend(left * 64 + v, Decode(s[1..], 0, 0, 0))
  {
    LetterValue(v);
  }

  lemma DecodePads(left: nat, group: nat)
    requires (group == 2 && left < 16) || (group == 3 && left < 4)
    ensures Decode(Padding(4 - group), group, left, 0) == Some([])
  {
    assert Padding(2)[1..] == Padding(1);
  }

  lemma DecodeOneByte(v0: nat, v1: nat, pads: nat)
    requires v0 < 64 && v1 < 64 && v1 % 16 == 0
    ensures Decode([Letter(v0), Letter(v1)] + Padding(2), 0, 0, pads) == Some([v0 * 4 + v1 / 16])
  {
    hide Decode, Letter, Padding;
    var s := [Letter(v0), Letter(v1)] + Padding(2);
    DecodeLetter(s, v0, 0, 0, pads);
    DecodeLetter(s[1..], v1, 1, v0, 0);
    DecodePads(0, 2);
    assert s[1..][1..] == Padding(2);
    assert forall x: Byte :: [x] + [] == [x];
  }

  lemma DecodeTwoBytes(v0: nat, v1: nat, v2: nat, pads: nat)
    requires v0 < 64 && v1 < 64 && v2 < 64 && v2 % 4 == 0
    ensures Decode([Letter(v0), Letter(v1), Letter(v2)] + Padding(1), 0, 0, pads)
              == Some([v0 * 4 + v1 / 16, v1 % 16 * 16 + v2 / 4])
  {
    hide Decode, Letter, Padding;
    var s := [Letter(v0), Letter(v1), Letter(v2)] + Padding(1);
    DecodeLetter(s, v0, 0, 0, pads);
    DecodeLetter(s[1..], v1, 1, v0, 0);
    DecodeLetter(s[2..], v2, 2, v1 % 16, 0);
    DecodePads(0, 3);
    assert s[1..][1..] == s[2..] && s[2..][1..] == Padding(1);
    assert forall x: Byte, y: Byte :: [x] + ([y] + []) == [x, y];
  }

  lemma DecodeGroup(v0: nat, v1: nat, v2: nat, v3: nat, rest: string, pads: nat)
    requires v0 < 64 && v1 < 64 && v2 < 64 && v3 < 64
    ensures Decode([Letter(v0), Letter(v1), Letter(v2), Letter(v3)] + rest, 0, 0, pads)
              == Prepend(v0 * 4 + v1 / 16,
                Prepend(v1 % 16 * 16 + v2 / 4, Prepend(v2 % 4 * 64 + v3, Decode(rest, 0, 0, 0))))
  {
    hide Decode, Letter;
    var s := [Letter(v0), Letter(v1), Letter(v2), Letter(v3)] + rest;
    DecodeLetter(s, v0, 0, 0, pads);
    DecodeLetter(s[1..], v1, 1, v0, 0);
    DecodeLetter(s[2..], v2, 2, v1 % 16, 0);
    DecodeLetter(s[3..], v3, 3, v2 % 4, 0);
    assert s[1..][1..] == s[2..] && s[2..][1..] == s[3..] && s[3..][1..] == rest;
  }

  lemma {:induction false} DecodeEncoded(b: seq<Byte>, pads: nat)
    ensures |Encode(b)| % 4 != 1
    ensures Decode(Encode(b) + Padding((4 - |Encode(b)| % 4) % 4), 0, 0, pads) == Some(b)
  {
    hide Decode, Letter, Padding;
    if b == [] {
      DecodeNothing(pads);
      assert Encode(b) + Padding(0) == "";
    } else if |b| == 1 {
      EncodedSingle(b[0], pads);
      assert b == [b[0]];
    } else if |b| == 2 {
      EncodedPair(b[0], b[1], pads);
      assert b == [b[0], b[1]];
    } else {
      EncodedTriple(b, pads);
      DecodeEncoded(b[3..], 0);
      assert b == [b[0]] + ([b[1]] + ([b[2]] + b[3..]));
      assert |Encode(b)| % 4 == |Encode(b[3..])| % 4;
    }
  }

  lemma EncodedSingle(a: Byte, pads: nat)
    ensures |Encode([a])| == 2 && Decode(Encode([a]) + Padding(2), 0, 0, pads) == Some([a])
  {
    hide Decode, Letter, Padding;
    DecodeOneByte(a / 4, a % 4 * 16, pads);
    assert a % 4 * 16 / 16 == a % 4;
  }

  lemma EncodedPair(a: Byte, b: Byte, pads: nat)
    ensures |Encode([a, b])| == 3 && Decode(Encode([a, b]) + Padding(1), 0, 0, pads) == Some([a, b])
  {
    hide Decode, Letter, Padding;
    var v1, v2 := a % 4 * 16 + b / 16, b % 16 * 4;
    DecodeTwoBytes(a / 4, v1, v2, pads);
    assert v2 / 4 == b % 16 && v1 % 16 == b / 16 && v1 / 16 == a % 4;
  }

  lemma EncodedTriple(b: seq<Byte>, pads: nat)
    requires |b| >= 3
    ensures |Encode(b)| == 4 + |Encode(b[3..])|
    ensures var padding := Padding((4 - |Encode(b)| % 4) % 4);
            Decode(Encode(b) + padding, 0, 0, pads)
              == Prepend(b[0], Prepend(b[1], Prepend(b[2], Decode(Encode(b[3..]) + padding, 0, 0, 0))))
  {
    hide Decode, Letter, Padding;
    var v0, v1, v2, v3 := b[0] / 4, b[0] % 4 * 16 + b[1] / 16, b[1] % 16 * 4 + b[2] / 64, b[2] % 64;
    var four, e := [Letter(v0), Letter(v1), Letter(v2), Letter(v3)], Encode(b[3..]);
    var padding := Padding((4 - |Encode(b)| % 4) % 4);
    assert Encode(b) + padding == four + (e + padding);
    GroupArithmetic(b[0], b[1], b[2]);
    DecodeGroup(v0, v1, v2, v3, e + padding, pads);
  }

  lemma DecodeNothing(pads: nat)
    ensures Encode([]) == "" && Padding(0) == "" && Decode("", 0, 0, pads) == Some([])
  {
  }

  lemma GroupArithmetic(a: Byte, b: Byte, c: Byte)
    ensures a / 4 * 4 + (a % 4 * 16 + b / 16) / 16 == a && (a % 4 * 16 + b / 16) % 16 == b / 16
    ensures b / 16 * 16 + (b % 16 * 4 + c / 64) / 4 == b && (b % 16 * 4 + c / 64) % 4 == c / 64
    ensures c / 64 * 64 + c % 64 == c
  {
  }

  /** Decoding what was encoded, its padding restored, gives the bytes back. */
  lemma Base64RoundTrip(b: seq<Byte>)
    ensures DecodePadded(Encode(b)) == Some(b)
  {
    DecodeEncoded(b, 0);
  }

  /** The characters of encoded text. */
  predicate IsUrlSafe(c: char) {
    'A' <= c <= 'Z' || 'a' <= c <= 'z' || '0' <= c <= '9' || c == '-' || c == '_'
  }

  lemma {:induction false} EncodedIsUrlSafe(b: seq<Byte>)
    ensures forall c | c in Encode(b) :: IsUrlSafe(c)
  {
    assert forall v: nat | v < 64 :: IsUrlSafe(Letter(v));
    if |b| > 2 {
      EncodedIsUrlSafe(b[3..]);
    }
  }

  /** The examples of section 10 of RFC 4648, without padding, and the two letters of its section 5. */
  lemma Base64Examples()
    ensures Encode([102]) == "Zg" && Encode([102, 111]) == "Zm8" && Encode([102, 111, 111]) == "Zm9v"
    ensures Encode([102, 111, 111, 98]) == "Zm9vYg" && Encode([251, 255]) == "-_8"
  {
  }

  /** Examples of section 7 of RFC 3629: A, the not-identical sign, alpha, and a character behind U+FFFF. */
  lemma Utf8Examples()
    ensures EncodeUtf8("A\U{2262}\U{391}") == [0x41, 0xE2, 0x89, 0xA2, 0xCE, 0x91]
    ensures EncodeUtf8("\U{233B4}") == [0xF0, 0xA3, 0x8E, 0xB4]
  {
    var s := "A\U{2262}\U{391}";
    assert s[1..] == "\U{2262}\U{391}" && s[1..][1..] == "\U{391}" && s[1..][1..][1..] == "";
    assert "\U{233B4}"[1..] == "";
  }
}
