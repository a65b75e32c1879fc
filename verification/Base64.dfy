/** Base64 (sections 4 and 5 of RFC 4648), strict: no stray bits, padding as the variant demands. */
module Base64 {
  import opened Bytes

  type sextet = x: int | 0 <= x < 64

  /** The symbols for 62 and 63 tell the two alphabets apart. */
  datatype Alphabet = Alphabet(symbol62: char, symbol63: char)

  const UrlSafe := Alphabet('-', '_')
  const Standard := Alphabet('+', '/')

  function Symbol(a: Alphabet, v: sextet): char {
    if v < 26 then 'A' + v as char
    else if v < 52 then 'a' + (v - 26) as char
    else if v < 62 then '0' + (v - 52) as char
    else if v == 62 then a.symbol62 else a.symbol63
  }

  function Value(a: Alphabet, c: char): Option<sextet> {
    if 'A' <= c <= 'Z' then Some(c as int - 'A' as int)
    else if 'a' <= c <= 'z' then Some(c as int - 'a' as int + 26)
    else if '0' <= c <= '9' then Some(c as int - '0' as int + 52)
    else if c == a.symbol62 then Some(62)
    else if c == a.symbol63 then Some(63)
    else None
  }

  function Values(a: Alphabet, s: string): Option<seq<sextet>> {
    if s == "" then Some([])
    else
      var first, rest := Value(a, s[0]), Values(a, s[1..]);
      if first.Some? && rest.Some? then Some([first.value] + rest.value) else None
  }

  function Symbols(a: Alphabet, v: seq<sextet>): string {
    if v == [] then "" else [Symbol(a, v[0])] + Symbols(a, v[1..])
  }

  predicate Proper(a: Alphabet) {
    a == UrlSafe || a == Standard
  }

  lemma SymbolHasValue(a: Alphabet, v: sextet)
    requires Proper(a)
    ensures Value(a, Symbol(a, v)) == Some(v)
  {
  }

  lemma {:induction false} SymbolsHaveValues(a: Alphabet, v: seq<sextet>)
    requires Proper(a)
    ensures Values(a, Symbols(a, v)) == Some(v)
  {
    if v != [] {
      SymbolHasValue(a, v[0]);
      SymbolsHaveValues(a, v[1..]);
      assert Symbols(a, v)[1..] == Symbols(a, v[1..]);
      assert [v[0]] + v[1..] == v;
    }
  }

  lemma {:induction false} ValuesHaveSymbols(a: Alphabet, s: string)
    requires Proper(a) && Values(a, s).Some?
    ensures Symbols(a, Values(a, s).value) == s
  {
    if s != "" {
      ValuesHaveSymbols(a, s[1..]);
      var v := Values(a, s).value;
      assert v[1..] == Values(a, s[1..]).value;
      assert [s[0]] + s[1..] == s;
    }
  }

  // ---- Eight-bit bytes as six-bit values ----

  function Split(b: bytes): seq<sextet> {
    if |b| == 0 then []
    else if |b| == 1 then [b[0] / 4, b[0] % 4 * 16]
    else if |b| == 2 then [b[0] / 4, b[0] % 4 * 16 + b[1] / 16, b[1] % 16 * 4]
    else [b[0] / 4, b[0] % 4 * 16 + b[1] / 16, b[1] % 16 * 4 + b[2] / 64, b[2] % 64] + Split(b[3..])
  }

  function Byte0(p: int, q: int): int {
    p * 4 + q / 16
  }

  function Byte1(q: int, r: int): int {
    q % 16 * 16 + r / 4
  }

  function Byte2(r: int, s: int): int {
    r % 4 * 64 + s
  }

  /** The bytes, unless a lone value or stray bits are left over. */
  function Join(v: seq<sextet>): Option<bytes> {
    if |v| == 0 then Some([])
    else if |v| == 1 then None
    else if |v| == 2 then if v[1] % 16 == 0 then Some([Byte0(v[0], v[1])]) else None
    else if |v| == 3 then
      if v[2] % 4 == 0 then Some([Byte0(v[0], v[1]), Byte1(v[1], v[2])]) else None
    else
      var rest := Join(v[4..]);
      if rest.None? then None
      else Some([Byte0(v[0], v[1]), Byte1(v[1], v[2]), Byte2(v[2], v[3])] + rest.value)
  }

  lemma GroupJoins(b0: byte, b1: byte, b2: byte)
    ensures Byte0(b0 / 4, b0 % 4 * 16 + b1 / 16) == b0
    ensures Byte1(b0 % 4 * 16 + b1 / 16, b1 % 16 * 4 + b2 / 64) == b1
    ensures Byte2(b1 % 16 * 4 + b2 / 64, b2 % 64) == b2
  {
  }

  lemma GroupSplits(p: sextet, q: sextet, r: sextet, s: sextet)
    ensures Byte0(p, q) / 4 == p
    ensures Byte0(p, q) % 4 * 16 + Byte1(q, r) / 16 == q
    ensures Byte1(q, r) % 16 * 4 + Byte2(r, s) / 64 == r
    ensures Byte2(r, s) % 64 == s
  {
  }

  lemma OneJoins(b0: byte)
    ensures Join([b0 / 4, b0 % 4 * 16]) == Some([b0])
  {
    GroupJoins(b0, 0, 0);
    var q := b0 % 4;
    assert q * 16 % 16 == 0;
  }

  lemma TwoJoin(b0: byte, b1: byte)
    ensures Join([b0 / 4, b0 % 4 * 16 + b1 / 16, b1 % 16 * 4]) == Some([b0, b1])
  {
    GroupJoins(b0, b1, 0);
    var r := b1 % 16;
    assert r * 4 % 4 == 0;
  }

  lemma {:induction false} SplitJoins(b: bytes)
    ensures Join(Split(b)) == Some(b)
  {
    if |b| == 1 {
      OneJoins(b[0]);
      assert b == [b[0]];
    } else if |b| == 2 {
      TwoJoin(b[0], b[1]);
      assert b == [b[0], b[1]];
    } else if |b| >= 3 {
      SplitJoins(b[3..]);
      GroupJoins(b[0], b[1], b[2]);
      assert Split(b)[4..] == Split(b[3..]);
      assert b == [b[0], b[1], b[2]] + b[3..];
    }
  }

  lemma {:induction false} JoinSplits(v: seq<sextet>)
    requires Join(v).Some?
    ensures Split(Join(v).value) == v
  {
    if |v| == 2 {
      GroupSplits(v[0], v[1], 0, 0);
      assert v == [v[0], v[1]] && Byte1(v[1], 0) == 0;
    } else if |v| == 3 {
      GroupSplits(v[0], v[1], v[2], 0);
      assert v == [v[0], v[1], v[2]] && Byte2(v[2], 0) == 0;
    } else if |v| >= 4 {
      JoinSplits(v[4..]);
      GroupSplits(v[0], v[1], v[2], v[3]);
      var b := Join(v).value;
      assert b[3..] == Join(v[4..]).value;
      assert v == [v[0], v[1], v[2], v[3]] + v[4..];
    }
  }

  // ---- The three decoders ----

  function Encode(b: bytes): string {
    Symbols(UrlSafe, Split(b))
  }

  function DecodeUnpadded(a: Alphabet, s: string): Option<bytes> {
    var v := Values(a, s);
    if v.None? then None else Join(v.value)
  }

  function StripPadding(s: string): string {
    if |s| >= 2 && s[|s| - 1] == '=' && s[|s| - 2] == '=' then s[..|s| - 2]
    else if |s| >= 1 && s[|s| - 1] == '=' then s[..|s| - 1]
    else s
  }

  function DecodePadded(a: Alphabet, s: string): Option<bytes> {
    if |s| % 4 != 0 then None else DecodeUnpadded(a, StripPadding(s))
  }

  /** Unpadded URL-safe, then padded URL-safe, then padded standard. */
  function DecodeAny(s: string): Option<bytes> {
    var first := DecodeUnpadded(UrlSafe, s);
    if first.Some? then first
    else
      var second := DecodePadded(UrlSafe, s);
      if second.Some? then second else DecodePadded(Standard, s)
  }

  /** A text decodes without padding to exactly the bytes it is the encoding of. */
  lemma DecodesIff(s: string, b: bytes)
    ensures DecodeUnpadded(UrlSafe, s) == Some(b) <==> s == Encode(b)
  {
    SymbolsHaveValues(UrlSafe, Split(b));
    SplitJoins(b);
    if DecodeUnpadded(UrlSafe, s) == Some(b) {
      ValuesHaveSymbols(UrlSafe, s);
      JoinSplits(Values(UrlSafe, s).value);
    }
  }

  // ---- Exactly what the decoders take ----

  function EncodeWith(a: Alphabet, b: bytes): string {
    Symbols(a, Split(b))
  }

  /** Filled up with `=` to a multiple of four symbols. */
  function Padded(s: string): string {
    s + match |s| % 4 case 2 => "==" case 3 => "=" case _ => ""
  }

  lemma UnpaddedIff(a: Alphabet, s: string, b: bytes)
    requires Proper(a)
    ensures DecodeUnpadded(a, s) == Some(b) <==> s == EncodeWith(a, b)
  {
    SymbolsHaveValues(a, Split(b));
    SplitJoins(b);
    if DecodeUnpadded(a, s) == Some(b) {
      ValuesHaveSymbols(a, s);
      JoinSplits(Values(a, s).value);
    }
  }

  lemma {:induction false} NoPaddingInside(a: Alphabet, v: seq<sextet>)
    requires Proper(a)
    ensures '=' !in Symbols(a, v) && |Symbols(a, v)| == |v|
  {
    if v != [] { NoPaddingInside(a, v[1..]); }
  }

  lemma EncodedShape(a: Alphabet, b: bytes)
    requires Proper(a)
    ensures '=' !in EncodeWith(a, b) && |EncodeWith(a, b)| % 4 != 1
  {
    NoPaddingInside(a, Split(b));
    SplitSize(b);
  }

  lemma StripsTwo(t: string)
    ensures StripPadding(t + "==") == t
  {
    var s := t + "==";
    assert s[|s| - 1] == '=' && s[|s| - 2] == '=' && s[..|s| - 2] == t;
  }

  lemma StripsOne(t: string)
    requires '=' !in t
    ensures StripPadding(t + "=") == t
  {
    var s := t + "=";
    if t != "" { assert s[|s| - 2] == t[|t| - 1]; }
    assert s[..|s| - 1] == t;
  }

  lemma StripsNone(t: string)
    requires '=' !in t
    ensures StripPadding(t) == t
  {
    if t != "" { assert t[|t| - 1] in t; }
  }

  lemma PaddingFills(t: string)
    requires |t| % 4 != 1
    ensures |Padded(t)| % 4 == 0
    ensures Padded(t) == if |t| % 4 == 2 then t + "==" else if |t| % 4 == 3 then t + "=" else t
  {
  }

  lemma PaddingStrips(t: string)
    requires '=' !in t && |t| % 4 != 1
    ensures StripPadding(Padded(t)) == t && |Padded(t)| % 4 == 0
  {
    PaddingFills(t);
    StripsTwo(t);
    StripsOne(t);
    StripsNone(t);
  }

  lemma StrippedIsPadded(s: string)
    requires |s| % 4 == 0 && '=' !in StripPadding(s) && |StripPadding(s)| % 4 != 1
    ensures s == Padded(StripPadding(s))
  {
  }

  lemma PaddedIff(a: Alphabet, s: string, b: bytes)
    requires Proper(a)
    ensures DecodePadded(a, s) == Some(b) <==> s == Padded(EncodeWith(a, b))
  {
    EncodedShape(a, b);
    PaddingStrips(EncodeWith(a, b));
    UnpaddedIff(a, StripPadding(s), b);
    if DecodePadded(a, s) == Some(b) {
      StrippedIsPadded(s);
    }
  }

  /** A text in both alphabets means the same in both. */
  lemma {:induction false} SameInBoth(s: string)
    requires Values(UrlSafe, s).Some? && Values(Standard, s).Some?
    ensures Values(UrlSafe, s) == Values(Standard, s)
  {
    if s != "" { SameInBoth(s[1..]); }
  }

  lemma BothAlphabets(s: string, b: bytes, b': bytes)
    requires DecodeUnpadded(UrlSafe, s) == Some(b) && DecodeUnpadded(Standard, s) == Some(b')
    ensures b == b'
  {
    SameInBoth(s);
  }

  /** Of two decoders in a row the later one never disagrees. */
  lemma DecodersAgree(s: string, b: bytes)
    ensures DecodeUnpadded(UrlSafe, s).Some? && DecodePadded(UrlSafe, s) == Some(b) ==> DecodeUnpadded(UrlSafe, s) == Some(b)
    ensures DecodeUnpadded(UrlSafe, s).Some? && DecodePadded(Standard, s) == Some(b) ==> DecodeUnpadded(UrlSafe, s) == Some(b)
    ensures DecodePadded(UrlSafe, s).Some? && DecodePadded(Standard, s) == Some(b) ==> DecodePadded(UrlSafe, s) == Some(b)
  {
    var first := DecodeUnpadded(UrlSafe, s);
    if first.Some? {
      UnpaddedIff(UrlSafe, s, first.value);
      EncodedShape(UrlSafe, first.value);
      assert StripPadding(s) == s;
      if DecodeUnpadded(Standard, s) == Some(b) { BothAlphabets(s, first.value, b); }
    }
    if DecodePadded(UrlSafe, s).Some? && DecodePadded(Standard, s) == Some(b) {
      BothAlphabets(StripPadding(s), DecodePadded(UrlSafe, s).value, b);
    }
  }

  /** The three decoders in turn take exactly the URL-safe encoding without or with padding, and the
      standard one with padding. */
  lemma DecodesAnyIff(s: string, b: bytes)
    ensures DecodeAny(s) == Some(b)
      <==> s == EncodeWith(UrlSafe, b) || s == Padded(EncodeWith(UrlSafe, b)) || s == Padded(EncodeWith(Standard, b))
  {
    UnpaddedIff(UrlSafe, s, b);
    PaddedIff(UrlSafe, s, b);
    PaddedIff(Standard, s, b);
    DecodersAgree(s, b);
  }

  lemma EncodedDecodes(b: bytes)
    ensures DecodeAny(Encode(b)) == Some(b)
  {
    DecodesIff(Encode(b), b);
  }

  predicate Text(c: char) {
    'A' <= c <= 'Z' || 'a' <= c <= 'z' || '0' <= c <= '9' || c == '-' || c == '_'
  }

  lemma {:induction false} SymbolsAreText(v: seq<sextet>)
    ensures forall i :: 0 <= i < |Symbols(UrlSafe, v)| ==> Text(Symbols(UrlSafe, v)[i])
    ensures |Symbols(UrlSafe, v)| == |v|
  {
    if v != [] {
      SymbolsAreText(v[1..]);
    }
  }

  lemma {:induction false} SplitSize(b: bytes)
    ensures |Split(b)| == (|b| * 4 + 2) / 3
  {
    if |b| >= 3 {
      SplitSize(b[3..]);
    }
  }

  /** The test vectors of section 10 of RFC 4648, without padding, and one with both special symbols. */
  lemma KnownEncodings()
    ensures Encode([0x66]) == "Zg" && Encode([0x66, 0x6F]) == "Zm8" && Encode([0x66, 0x6F, 0x6F]) == "Zm9v"
    ensures Encode([0xFB, 0xFF]) == "-_8" && EncodeWith(Standard, [0xFB, 0xFF]) == "+/8"
    ensures Padded("Zg") == "Zg==" && Padded("Zm8") == "Zm8=" && Padded("Zm9v") == "Zm9v"
  {
    SymbolsOf(UrlSafe, 25, 32, 0, 0);
    SymbolsOf(UrlSafe, 25, 38, 60, 0);
    SymbolsOf(UrlSafe, 25, 38, 61, 47);
    SymbolsOf(UrlSafe, 62, 63, 60, 0);
    SymbolsOf(Standard, 62, 63, 60, 0);
    assert Split([0x66, 0x6F, 0x6F]) == [25, 38, 61, 47] + Split([]);
  }

  lemma {:induction false} SymbolsAt(a: Alphabet, v: seq<sextet>)
    ensures |Symbols(a, v)| == |v| && forall i :: 0 <= i < |v| ==> Symbols(a, v)[i] == Symbol(a, v[i])
  {
    if v != [] { SymbolsAt(a, v[1..]); }
  }

  lemma SymbolsOf(a: Alphabet, p: sextet, q: sextet, r: sextet, s: sextet)
    ensures Symbols(a, [p, q]) == [Symbol(a, p), Symbol(a, q)]
    ensures Symbols(a, [p, q, r]) == [Symbol(a, p), Symbol(a, q), Symbol(a, r)]
    ensures Symbols(a, [p, q, r, s]) == [Symbol(a, p), Symbol(a, q), Symbol(a, r), Symbol(a, s)]
  {
    SymbolsAt(a, [p, q]);
    SymbolsAt(a, [p, q, r]);
    SymbolsAt(a, [p, q, r, s]);
  }
}
