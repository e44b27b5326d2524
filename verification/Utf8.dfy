/**
 * UTF-8 as RFC 3629 defines it: the encoding of section 3 and the byte sequences that section 4
 * admits, decoded as a fatal TextDecoder does. A `char` is a Unicode scalar value.
 */
module Utf8 {
  import opened Prelude

  type Byte = b: int | 0 <= b < 0x100
  type Bytes = seq<Byte>

  function Tail(n: nat): Byte {
    0x80 + n % 0x40
  }

  function EncodeChar(c: char): (b: Bytes)
    ensures 1 <= |b| <= 4
  {
    var n := c as int;
    if n < 0x80 then [n]
    else if n < 0x800 then [0xC0 + n / 0x40, Tail(n)]
    else if n < 0x1_0000 then [0xE0 + n / 0x1000, Tail(n / 0x40), Tail(n)]
    else [0xF0 + n / 0x4_0000, Tail(n / 0x1000), Tail(n / 0x40), Tail(n)]
  }

  function Encode(text: string): Bytes {
    if text == "" then [] else EncodeChar(text[0]) + Encode(text[1..])
  }

  predicate Continues(b: Byte) {
    b / 0x40 == 2
  }

  /** The second byte after a given first one: no overlong forms, no surrogates, nothing above U+10FFFF. */
  predicate Second(first: Byte, b: Byte) {
    && Continues(b)
    && (first == 0xE0 ==> 0xA0 <= b) && (first == 0xED ==> b <= 0x9F)
    && (first == 0xF0 ==> 0x90 <= b) && (first == 0xF4 ==> b <= 0x8F)
  }

  /** What the payload bits of a sequence add up to. */
  function Two(a: int, b: int): int {
    (a - 0xC0) * 0x40 + (b - 0x80)
  }

  function Three(a: int, b: int, c: int): int {
    ((a - 0xE0) * 0x40 + (b - 0x80)) * 0x40 + (c - 0x80)
  }

  function Four(a: int, b: int, c: int, d: int): int {
    (((a - 0xF0) * 0x40 + (b - 0x80)) * 0x40 + (c - 0x80)) * 0x40 + (d - 0x80)
  }

  datatype First = First(value: char, length: nat)

  /** The character at the start of non-empty bytes, if they start with a whole one. */
  function DecodeFirst(b: Bytes): (r: Option<First>)
    requires b != []
    ensures r.Some? ==> 1 <= r.value.length <= 4 && r.value.length <= |b|
  {
    var first := b[0];
    if first <= 0x7F then Some(First(first as char, 1))
    else if 0xC2 <= first <= 0xDF && |b| >= 2 && Second(first, b[1]) then
      Some(First(Two(first, b[1]) as char, 2))
    else if 0xE0 <= first <= 0xEF && |b| >= 3 && Second(first, b[1]) && Continues(b[2]) then
      Some(First(Three(first, b[1], b[2]) as char, 3))
    else if 0xF0 <= first <= 0xF4 && |b| >= 4 && Second(first, b[1]) && Continues(b[2]) && Continues(b[3]) then
      Some(First(Four(first, b[1], b[2], b[3]) as char, 4))
    else None
  }

  /** The text, or None where a fatal decoder throws. */
  function Decode(b: Bytes): Option<string>
    decreases |b|
  {
    if b == [] then Some("")
    else
      match DecodeFirst(b)
      case None => None
      case Some(first) =>
        match Decode(b[first.length..])
        case None => None
        case Some(rest) => Some([first.value] + rest)
  }

  // ---------------------------------------------------------------- round trips

  lemma Digits(n: nat)
    ensures n / 0x40 / 0x40 == n / 0x1000 && n / 0x40 / 0x40 / 0x40 == n / 0x4_0000
  {
  }

  lemma Shift(q: nat, r: nat)
    requires r < 0x40
    ensures (q * 0x40 + r) / 0x40 == q && (q * 0x40 + r) % 0x40 == r
  {
  }

  lemma CharRoundTrip(c: char, rest: Bytes)
    ensures DecodeFirst(EncodeChar(c) + rest) == Some(First(c, |EncodeChar(c)|))
  {
    var n, b := c as int, EncodeChar(c) + rest;
    Digits(n);
    if n < 0x80 {
    } else if n < 0x800 {
      assert b[0] == 0xC0 + n / 0x40 && b[1] == Tail(n);
      assert Two(b[0], b[1]) == n;
    } else if n < 0x1_0000 {
      assert b[0] == 0xE0 + n / 0x1000 && b[1] == Tail(n / 0x40) && b[2] == Tail(n);
      assert Three(b[0], b[1], b[2]) == n;
    } else {
      assert b[0] == 0xF0 + n / 0x4_0000 && b[1] == Tail(n / 0x1000) && b[2] == Tail(n / 0x40) && b[3] == Tail(n);
      assert Four(b[0], b[1], b[2], b[3]) == n;
    }
  }

  lemma ThreeDigits(a: int, b: int, c: int)
    requires 0xE0 <= a <= 0xEF && 0x80 <= b < 0xC0 && 0x80 <= c < 0xC0
    ensures var n := Three(a, b, c); n >= 0 && 0xE0 + n / 0x1000 == a && Tail(n / 0x40) == b && Tail(n) == c
  {
    var high := (a - 0xE0) * 0x40 + (b - 0x80);
    Shift(a - 0xE0, b - 0x80);
    Shift(high, c - 0x80);
    Digits(Three(a, b, c));
  }

  lemma FourDigits(a: int, b: int, c: int, d: int)
    requires 0xF0 <= a <= 0xF4 && 0x80 <= b < 0xC0 && 0x80 <= c < 0xC0 && 0x80 <= d < 0xC0
    ensures var n := Four(a, b, c, d);
            n >= 0 && 0xF0 + n / 0x4_0000 == a && Tail(n / 0x1000) == b && Tail(n / 0x40) == c && Tail(n) == d
  {
    var top := (a - 0xF0) * 0x40 + (b - 0x80);
    var high := top * 0x40 + (c - 0x80);
    Shift(a - 0xF0, b - 0x80);
    Shift(top, c - 0x80);
    Shift(high, d - 0x80);
    Digits(Four(a, b, c, d));
  }

  lemma FirstReencodes(b: Bytes)
    requires b != [] && DecodeFirst(b).Some?
    ensures EncodeChar(DecodeFirst(b).value.value) == b[..DecodeFirst(b).value.length]
  {
    var length := DecodeFirst(b).value.length;
    if length == 2 {
      Shift(b[0] - 0xC0, b[1] - 0x80);
    } else if length == 3 {
      ThreeDigits(b[0], b[1], b[2]);
    } else if length == 4 {
      FourDigits(b[0], b[1], b[2], b[3]);
    }
  }

  /** Whatever is encoded is decoded to the same text. */
  lemma {:induction false} DecodeEncode(text: string)
    ensures Decode(Encode(text)) == Some(text)
  {
    if text != "" {
      DecodeEncode(text[1..]);
      CharRoundTrip(text[0], Encode(text[1..]));
      assert [text[0]] + text[1..] == text;
      assert Encode(text)[|EncodeChar(text[0])|..] == Encode(text[1..]);
    }
  }

  /** Only encodings are decoded: valid UTF-8 is exactly the image of the encoder. */
  lemma {:induction false} EncodeDecode(b: Bytes, text: string)
    requires Decode(b) == Some(text)
    ensures Encode(text) == b
    decreases |b|
  {
    if b != [] {
      var first := DecodeFirst(b).value;
      var rest, more := b[first.length..], text[1..];
      assert text == [first.value] + more && Decode(rest) == Some(more);
      EncodeDecode(rest, more);
      EncodeCons(first.value, more);
      FirstReencodes(b);
      assert b == b[..first.length] + rest;
    }
  }

  lemma EncodeCons(c: char, rest: string)
    ensures Encode([c] + rest) == EncodeChar(c) + Encode(rest)
  {
    assert ([c] + rest)[1..] == rest;
  }

  lemma {:induction false} EncodeAppend(s: string, t: string)
    ensures Encode(s + t) == Encode(s) + Encode(t)
  {
    if s == "" {
      assert s + t == t;
    } else {
      EncodeAppend(s[1..], t);
      assert s + t == [s[0]] + (s[1..] + t);
      EncodeCons(s[0], s[1..] + t);
      Assoc(EncodeChar(s[0]), Encode(s[1..]), Encode(t));
    }
  }

  /** A code point takes one to four bytes. */
  lemma {:induction false} EncodeLength(text: string)
    ensures |text| <= |Encode(text)| <= 4 * |text|
  {
    if text != "" { EncodeLength(text[1..]); }
  }

  // ---------------------------------------------------------------- the shape of one character

  /** The length announced by a first byte; 0 for a byte that starts nothing. */
  function Expected(first: Byte): nat {
    if first <= 0x7F then 1
    else if 0xC2 <= first <= 0xDF then 2
    else if 0xE0 <= first <= 0xEF then 3
    else if 0xF0 <= first <= 0xF4 then 4
    else 0
  }

  lemma CharShape(c: char)
    ensures var b := EncodeChar(c);
            Expected(b[0]) == |b| && !Continues(b[0]) && forall k | 1 <= k < |b| :: Continues(b[k])
  {
  }

  /** Where a text of whole characters starts anew: never inside a character. */
  lemma StartsCharacter(text: string)
    requires text != ""
    ensures Encode(text) != [] && !Continues(Encode(text)[0])
  {
    CharShape(text[0]);
  }
}
