/** Machine words and their big-endian encodings. */
module Bytes {
  type byte = x: int | 0 <= x < 0x100
  type u16 = x: int | 0 <= x < 0x1_0000
  type u32 = x: int | 0 <= x < 0x1_0000_0000
  type bytes = seq<byte>

  datatype Option<+T> = None | Some(value: T)
  datatype Result<+T> = Ok(value: T) | Err(error: string)
  datatype Unit = Unit

  lemma Reassociate<T>(p: seq<T>, q: seq<T>, r: seq<T>)
    ensures p + q + r == p + (q + r)
  {
  }

  lemma SameSplit<T>(p: seq<T>, q: seq<T>, p': seq<T>, q': seq<T>)
    requires p + q == p' + q' && |p| == |p'|
    ensures p == p' && q == q'
  {
    var s := p + q;
    assert s[..|p|] == p && s[..|p|] == p';
    assert s[|p|..] == q && s[|p|..] == q';
  }

  lemma SplitAtIndex<T>(s: seq<T>, i: nat)
    requires i < |s|
    ensures s == s[..i] + [s[i]] + s[i + 1..]
  {
  }

  function U16ToBe(x: u16): (r: bytes)
    ensures |r| == 2 && U16FromBe(r[0], r[1]) == x
  {
    [x / 0x100, x % 0x100]
  }

  function U16FromBe(hi: byte, lo: byte): u16 {
    hi * 0x100 + lo
  }

  function U32ToBe(x: u32): (r: bytes)
    ensures |r| == 4 && U32FromBe(r[0], r[1], r[2], r[3]) == x
  {
    var r := U16ToBe(x / 0x1_0000) + U16ToBe(x % 0x1_0000);
    r
  }

  function U32FromBe(b0: byte, b1: byte, b2: byte, b3: byte): u32 {
    U16FromBe(b0, b1) * 0x1_0000 + U16FromBe(b2, b3)
  }

  /** The low bytes of a number, the highest first. */
  function BigEndian(n: nat, width: nat): (r: bytes)
    ensures |r| == width
    decreases width
  {
    if width == 0 then [] else BigEndian(n / 0x100, width - 1) + [n % 0x100]
  }

  function Power256(width: nat): (p: nat)
    ensures p > 0
  {
    if width == 0 then 1 else 0x100 * Power256(width - 1)
  }

  lemma {:induction false} BigEndianInjective(n: nat, m: nat, width: nat)
    requires n < Power256(width) && m < Power256(width) && BigEndian(n, width) == BigEndian(m, width)
    ensures n == m
    decreases width
  {
    if width > 0 {
      SameSplit(BigEndian(n / 0x100, width - 1), [n % 0x100], BigEndian(m / 0x100, width - 1), [m % 0x100]);
      assert [n % 0x100][0] == [m % 0x100][0];
      BigEndianInjective(n / 0x100, m / 0x100, width - 1);
    }
  }

  /** What does not fit is cut off. */
  lemma {:induction false} BigEndianWraps(n: nat, width: nat)
    ensures BigEndian(n + Power256(width), width) == BigEndian(n, width)
    decreases width
  {
    if width > 0 {
      BigEndianWraps(n / 0x100, width - 1);
      assert (n + Power256(width)) / 0x100 == n / 0x100 + Power256(width - 1);
    }
  }

  lemma U16BeInjective(hi: byte, lo: byte, hi': byte, lo': byte)
    requires U16FromBe(hi, lo) == U16FromBe(hi', lo')
    ensures hi == hi' && lo == lo'
  {
  }

  /** Two bytes are the encoding of the number they spell. */
  lemma U16BeUnique(hi: byte, lo: byte)
    ensures U16ToBe(U16FromBe(hi, lo)) == [hi, lo]
  {
    var r := U16ToBe(U16FromBe(hi, lo));
    U16BeInjective(r[0], r[1], hi, lo);
  }

  lemma JoinInjective(hi: u16, lo: u16, hi': u16, lo': u16)
    requires hi * 0x1_0000 + lo == hi' * 0x1_0000 + lo'
    ensures hi == hi' && lo == lo'
  {
  }

  /** Four bytes are the encoding of the number they spell. */
  lemma U32BeUnique(b: bytes)
    requires |b| == 4
    ensures U32ToBe(U32FromBe(b[0], b[1], b[2], b[3])) == b
  {
    var r := U32ToBe(U32FromBe(b[0], b[1], b[2], b[3]));
    JoinInjective(U16FromBe(r[0], r[1]), U16FromBe(r[2], r[3]), U16FromBe(b[0], b[1]), U16FromBe(b[2], b[3]));
    U16BeInjective(r[0], r[1], b[0], b[1]);
    U16BeInjective(r[2], r[3], b[2], b[3]);
  }

  /** Lexicographic order, as on byte slices. */
  predicate Less(a: bytes, b: bytes) {
    if b == [] then false
    else if a == [] then true
    else a[0] < b[0] || (a[0] == b[0] && Less(a[1..], b[1..]))
  }

  /** Of two different keys exactly one is the smaller. */
  lemma {:induction false} LessTotal(a: bytes, b: bytes)
    ensures !(Less(a, b) && Less(b, a))
    ensures Less(a, b) || Less(b, a) <==> a != b
  {
    if a != [] && b != [] {
      LessTotal(a[1..], b[1..]);
      if a[0] == b[0] && a[1..] == b[1..] {
        assert a == [a[0]] + a[1..] && b == [b[0]] + b[1..];
      }
    }
  }

  /** What the order is: at the first difference the smaller byte, or the end, comes first. */
  lemma {:induction false} LessIff(a: bytes, b: bytes)
    ensures Less(a, b) <==> exists i: nat :: FirstDifference(a, b, i)
  {
    if a != [] && b != [] && a[0] == b[0] {
      LessIff(a[1..], b[1..]);
      if Less(a, b) {
        var i: nat :| FirstDifference(a[1..], b[1..], i);
        SameHead(a, b, i);
      }
      if i: nat :| FirstDifference(a, b, i) {
        SameHead(a, b, i - 1);
      }
    } else if b != [] {
      assert FirstDifference(a, b, 0) <==> a == [] || a[0] < b[0];
      if i: nat :| FirstDifference(a, b, i) {
        SameUpTo(a, b, i);
      }
    }
  }

  predicate FirstDifference(a: bytes, b: bytes, i: nat) {
    i <= |a| && i < |b| && a[..i] == b[..i] && (i == |a| || a[i] < b[i])
  }

  lemma SameUpTo(a: bytes, b: bytes, i: nat)
    requires FirstDifference(a, b, i)
    ensures i > 0 ==> a != [] && a[0] == b[0]
  {
    if i > 0 { assert a[..i][0] == b[..i][0]; }
  }

  lemma SameHead(a: bytes, b: bytes, i: nat)
    requires a != [] && b != [] && a[0] == b[0]
    ensures FirstDifference(a[1..], b[1..], i) <==> FirstDifference(a, b, i + 1)
  {
    if i + 1 <= |a| && i + 1 <= |b| {
      assert a[..i + 1] == [a[0]] + a[1..][..i] && b[..i + 1] == [b[0]] + b[1..][..i];
      assert a[1..][..i] == a[..i + 1][1..] && b[1..][..i] == b[..i + 1][1..];
    }
  }

  /** The number some bytes spell, the highest first. */
  function Spelled(b: bytes): nat {
    if b == [] then 0 else Spelled(b[..|b| - 1]) * 0x100 + b[|b| - 1]
  }

  lemma SpelledTwo(b: bytes)
    requires |b| == 2
    ensures Spelled(b) == U16FromBe(b[0], b[1])
  {
    var one := b[..1];
    assert one[..0] == [] && Spelled(one) == Spelled([]) * 0x100 + b[0];
    assert Spelled(b) == Spelled(one) * 0x100 + b[1];
  }

  lemma SpelledFour(b: bytes)
    requires |b| == 4
    ensures Spelled(b) == U32FromBe(b[0], b[1], b[2], b[3])
  {
    SpelledTwo(b[..2]);
    assert b[..2][0] == b[0] && b[..2][1] == b[1];
    var three := b[..3];
    assert three[..2] == b[..2] && Spelled(three) == Spelled(b[..2]) * 0x100 + b[2];
    assert Spelled(b) == Spelled(three) * 0x100 + b[3];
  }

  /** The highest byte comes first, and what does not fit is cut off. */
  lemma {:induction false} BigEndianSpells(n: nat, width: nat)
    ensures Spelled(BigEndian(n, width)) == n % Power256(width)
    decreases width
  {
    if width > 0 {
      BigEndianSpells(n / 0x100, width - 1);
      var b := BigEndian(n, width);
      assert b[..width - 1] == BigEndian(n / 0x100, width - 1);
      SplitModulo(n, Power256(width - 1));
    }
  }

  lemma SplitModulo(n: nat, p: nat)
    requires p > 0
    ensures n % (0x100 * p) == n / 0x100 % p * 0x100 + n % 0x100
  {
    var q, r := n / 0x100 / p, n / 0x100 % p;
    assert n / 0x100 == q * p + r;
    assert n == (q * p + r) * 0x100 + n % 0x100 == q * (0x100 * p) + (r * 0x100 + n % 0x100);
    assert r * 0x100 + n % 0x100 < 0x100 * p;
    RemainderIs(n, 0x100 * p, q, r * 0x100 + n % 0x100);
  }

  lemma RemainderIs(n: nat, d: nat, q: nat, r: nat)
    requires n == q * d + r && r < d
    ensures n % d == r
  {
    var k := n / d;
    assert n == k * d + n % d;
    if q < k { TimesLe(q + 1, k, d); }
    if k < q { TimesLe(k + 1, q, d); }
  }

  lemma TimesLe(a: nat, b: nat, d: nat)
    requires a <= b
    ensures a * d <= b * d
  {
  }
}
