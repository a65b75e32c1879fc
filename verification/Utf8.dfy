/** UTF-8 (section 3 of RFC 3629). */
module Utf8 {
  import opened Bytes

  function EncodeChar(c: char): bytes {
    var x := c as int;
    var y := x / 0x40;
    var z := y / 0x40;
    if x < 0x80 then [x]
    else if x < 0x800 then [0xC0 + y, 0x80 + x % 0x40]
    else if x < 0x1_0000 then [0xE0 + z, 0x80 + y % 0x40, 0x80 + x % 0x40]
    else [0xF0 + z / 0x40, 0x80 + z % 0x40, 0x80 + y % 0x40, 0x80 + x % 0x40]
  }

  function Encode(s: string): bytes {
    if s == "" then [] else EncodeChar(s[0]) + Encode(s[1..])
  }

  predicate Scalar(x: int) {
    0 <= x < 0xD800 || 0xE000 <= x < 0x11_0000
  }

  predicate Tail(b: int) {
    0x80 <= b < 0xC0
  }

  /** The number a first byte less its mark and the following bytes spell. */
  function Two(h: int, b1: int): int {
    h * 0x40 + (b1 - 0x80)
  }

  function Three(h: int, b1: int, b2: int): int {
    Two(h, b1) * 0x40 + (b2 - 0x80)
  }

  function Four(h: int, b1: int, b2: int, b3: int): int {
    Three(h, b1, b2) * 0x40 + (b3 - 0x80)
  }

  /** The first character and its length in bytes, if the bytes begin with a well-formed one. */
  function DecodeChar(b: bytes): Option<(char, nat)>
    requires b != []
  {
    var b0: int := b[0];
    if b0 < 0x80 then Some((b0 as char, 1))
    else if 0xC2 <= b0 < 0xE0 && |b| >= 2 && Tail(b[1]) then Some((Two(b0 - 0xC0, b[1]) as char, 2))
    else if 0xE0 <= b0 < 0xF0 && |b| >= 3 && Tail(b[1]) && Tail(b[2]) then
      var x := Three(b0 - 0xE0, b[1], b[2]);
      if x >= 0x800 && Scalar(x) then Some((x as char, 3)) else None
    else if 0xF0 <= b0 < 0xF5 && |b| >= 4 && Tail(b[1]) && Tail(b[2]) && Tail(b[3]) then
      var x := Four(b0 - 0xF0, b[1], b[2], b[3]);
      if x >= 0x1_0000 && Scalar(x) then Some((x as char, 4)) else None
    else None
  }

  lemma DecodedLength(b: bytes)
    requires b != [] && DecodeChar(b).Some?
    ensures 1 <= DecodeChar(b).value.1 <= |b|
  {
  }

  function Decode(b: bytes): Option<string>
    decreases |b|
  {
    if b == [] then Some("")
    else
      var first := DecodeChar(b);
      if first.None? then None
      else
        DecodedLength(b);
        var rest := Decode(b[first.value.1..]);
        if rest.None? then None else Some([first.value.0] + rest.value)
  }

  lemma CharDecodes(c: char)
    ensures DecodeChar(EncodeChar(c)) == Some((c, |EncodeChar(c)|))
  {
  }

  lemma FirstDecodes(b: bytes, rest: bytes)
    requires b != [] && DecodeChar(b).Some? && DecodeChar(b).value.1 == |b|
    ensures DecodeChar(b + rest) == DecodeChar(b)
  {
  }

  lemma CharRoundTrip(c: char, rest: bytes)
    ensures DecodeChar(EncodeChar(c) + rest) == Some((c, |EncodeChar(c)|))
  {
    CharDecodes(c);
    FirstDecodes(EncodeChar(c), rest);
  }

  lemma {:induction false} RoundTrip(s: string)
    ensures Decode(Encode(s)) == Some(s)
  {
    if s != "" {
      CharRoundTrip(s[0], Encode(s[1..]));
      RoundTrip(s[1..]);
      var n := |EncodeChar(s[0])|;
      assert Encode(s)[n..] == Encode(s[1..]);
      assert [s[0]] + s[1..] == s;
    }
  }

  /** Nothing else decodes to a text than its encoding. */
  lemma {:induction false} OnlyEncodingDecodes(b: bytes)
    requires Decode(b).Some?
    ensures Encode(Decode(b).value) == b
    decreases |b|
  {
    if b != [] {
      DecodedLength(b);
      var (c, n) := DecodeChar(b).value;
      OnlyEncodingDecodes(b[n..]);
      CharEncodes(b);
      EncodeCons(b, n, c, Decode(b[n..]).value);
    }
  }

  lemma EncodeCons(b: bytes, n: nat, c: char, s: string)
    requires n <= |b| && EncodeChar(c) == b[..n] && Encode(s) == b[n..]
    ensures Encode([c] + s) == b
  {
    assert ([c] + s)[1..] == s;
    assert b == b[..n] + b[n..];
  }

  lemma CharEncodes(b: bytes)
    requires b != [] && DecodeChar(b).Some?
    ensures EncodeChar(DecodeChar(b).value.0) == b[..DecodeChar(b).value.1]
  {
    var (c, n) := DecodeChar(b).value;
    if n == 2 {
      TwoParts(b[0] as int - 0xC0, b[1]);
    } else if n == 3 {
      TwoParts(b[0] as int - 0xE0, b[1]);
      TwoParts(Two(b[0] as int - 0xE0, b[1]), b[2]);
    } else if n == 4 {
      TwoParts(b[0] as int - 0xF0, b[1]);
      TwoParts(Two(b[0] as int - 0xF0, b[1]), b[2]);
      TwoParts(Three(b[0] as int - 0xF0, b[1], b[2]), b[3]);
    }
  }

  lemma TwoParts(h: int, b1: int)
    requires Tail(b1)
    ensures Two(h, b1) / 0x40 == h && 0x80 + Two(h, b1) % 0x40 == b1
  {
  }

  /** The examples of section 7 of RFC 3629, and one of four bytes. */
  lemma KnownEncodings()
    ensures EncodeChar(0x41 as char) == [0x41] && EncodeChar(0x391 as char) == [0xCE, 0x91]
    ensures EncodeChar(0x2262 as char) == [0xE2, 0x89, 0xA2] && EncodeChar(0x233B4 as char) == [0xF0, 0xA3, 0x8E, 0xB4]
  {
  }
}
