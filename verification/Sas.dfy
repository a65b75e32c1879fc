/** The short authentication string. */
module Sas {
  import opened Bytes
  import opened Primitives
  import opened Transcripts

  const KEY_LEN := 32

  function Smaller(a: bytes, b: bytes): bytes {
    if Less(a, b) then a else b
  }

  function Larger(a: bytes, b: bytes): bytes {
    if Less(a, b) then b else a
  }

  /** What is hashed: the two identities in order, the secret, the transcript. */
  function HashInput(secret: bytes, localKey: bytes, remoteKey: bytes, transcript: bytes): bytes {
    Smaller(localKey, remoteKey) + Larger(localKey, remoteKey) + secret + transcript
  }

  function Digit(n: nat): char
    requires n < 10
  {
    "0123456789"[n]
  }

  function Digits(n: nat, width: nat): (s: string)
    ensures |s| == width
    decreases width
  {
    if width == 0 then "" else Digits(n / 10, width - 1) + [Digit(n % 10)]
  }

  function ComputeSas(c: Scheme, secret: bytes, localKey: bytes, remoteKey: bytes, transcript: bytes): string {
    var hash := c.sha256(HashInput(secret, localKey, remoteKey, transcript));
    if |hash| < 3 then "" else
      Digits(U32FromBe(0, hash[0], hash[1], hash[2]) % 1_000_000, 6)
  }

  lemma SortedPair(l: bytes, r: bytes, l': bytes, r': bytes)
    ensures Smaller(l, r) == Smaller(l', r') && Larger(l, r) == Larger(l', r') <==> {l, r} == {l', r'}
  {
    LessTotal(l, r);
    LessTotal(l', r');
    var s, g, s', g' := Smaller(l, r), Larger(l, r), Smaller(l', r'), Larger(l', r');
    assert {l, r} == {s, g} && {l', r'} == {s', g'};
    if {s, g} == {s', g'} {
      LessTotal(s, g);
      LessTotal(s', g');
      assert s in {s', g'} && g in {s', g'} && s' in {s, g} && g' in {s, g};
    }
  }

  /** Two sides hash the same bytes exactly when they agree on the pair of identities, on the secret
      and on all step bodies; which side is the local one makes no difference. */
  lemma HashInputsEqualIff(secret: bytes, l: bytes, r: bytes, bodies: seq<bytes>,
                           secret': bytes, l': bytes, r': bytes, bodies': seq<bytes>)
    requires |secret| == |l| == |r| == |secret'| == |l'| == |r'| == KEY_LEN
    requires AllShort(bodies) && AllShort(bodies')
    ensures HashInput(secret, l, r, Joined(bodies)) == HashInput(secret', l', r', Joined(bodies'))
      <==> {l, r} == {l', r'} && secret == secret' && bodies == bodies'
  {
    var x, x' := HashInput(secret, l, r, Joined(bodies)), HashInput(secret', l', r', Joined(bodies'));
    SortedPair(l, r, l', r');
    TranscriptInjective(bodies, bodies');
    if x == x' {
      var p, p' := Smaller(l, r) + Larger(l, r), Smaller(l', r') + Larger(l', r');
      SameSplit(p + secret, Joined(bodies), p' + secret', Joined(bodies'));
      SameSplit(p, secret, p', secret');
      SameSplit(Smaller(l, r), Larger(l, r), Smaller(l', r'), Larger(l', r'));
    }
  }

  /** Both sides compute the same string. */
  lemma SasSymmetric(c: Scheme, secret: bytes, l: bytes, r: bytes, transcript: bytes)
    ensures ComputeSas(c, secret, l, r, transcript) == ComputeSas(c, secret, r, l, transcript)
  {
    SortedPair(l, r, r, l);
  }

  function Value(s: string): int {
    if s == "" then 0 else Value(s[..|s| - 1]) * 10 + (s[|s| - 1] as int - '0' as int)
  }

  function Power10(k: nat): nat {
    if k == 0 then 1 else 10 * Power10(k - 1)
  }

  /** The digits shown are the number, zero-padded: nothing is lost. */
  lemma {:induction false} DigitsSpell(n: nat, width: nat)
    requires n < Power10(width)
    ensures Value(Digits(n, width)) == n
    ensures forall i :: 0 <= i < width ==> '0' <= Digits(n, width)[i] <= '9'
    decreases width
  {
    if width > 0 {
      DigitsSpell(n / 10, width - 1);
      var s := Digits(n, width);
      assert s[..width - 1] == Digits(n / 10, width - 1);
    }
  }

  /** The number that is shown: the first three bytes of a hash, the highest first, cut to six digits. */
  function Shown(hash: bytes): nat
    requires |hash| >= 3
  {
    (hash[0] as int * 65536 + hash[1] as int * 256 + hash[2] as int) % 1_000_000
  }

  /** The string is six digits that spell this number of the hash of the smaller key, the larger one, the
      secret and the transcript. */
  lemma SasSpells(c: Scheme, secret: bytes, l: bytes, r: bytes, transcript: bytes)
    requires Lengths(c)
    ensures var sas := ComputeSas(c, secret, l, r, transcript);
      && |sas| == 6 && (forall i :: 0 <= i < 6 ==> '0' <= sas[i] <= '9')
      && Value(sas) == Shown(c.sha256((if Less(l, r) then l + r else r + l) + secret + transcript))
  {
    var hash := c.sha256(HashInput(secret, l, r, transcript));
    assert |hash| == 32;
    FirstThree(hash);
    Million();
    DigitsSpell(Shown(hash), 6);
  }

  lemma FirstThree(hash: bytes)
    requires |hash| >= 3
    ensures U32FromBe(0, hash[0], hash[1], hash[2]) % 1_000_000 == Shown(hash)
  {
  }

  lemma Million()
    ensures Power10(6) == 1_000_000
  {
    assert Power10(3) == 1000;
  }

  /** Digit strings of one length that spell the same number are the same. */
  lemma {:induction false} SpelledOnce(s: string, t: string)
    requires |s| == |t| && Value(s) == Value(t)
    requires forall i :: 0 <= i < |s| ==> '0' <= s[i] <= '9' && '0' <= t[i] <= '9'
    ensures s == t
    decreases |s|
  {
    if s != "" {
      var n := |s| - 1;
      SpelledOnce(s[..n], t[..n]);
      assert s == s[..n] + [s[n]] && t == t[..n] + [t[n]];
    }
  }

  /** Two sides show the same string exactly if these numbers of their hashes are equal. */
  lemma SameStringIff(c: Scheme, secret: bytes, l: bytes, r: bytes, transcript: bytes,
                      secret': bytes, l': bytes, r': bytes, transcript': bytes)
    requires Lengths(c)
    ensures |c.sha256(HashInput(secret, l, r, transcript))| == |c.sha256(HashInput(secret', l', r', transcript'))| == 32
    ensures ComputeSas(c, secret, l, r, transcript) == ComputeSas(c, secret', l', r', transcript')
      <==> Shown(c.sha256(HashInput(secret, l, r, transcript))) == Shown(c.sha256(HashInput(secret', l', r', transcript')))
  {
    SasSpells(c, secret, l, r, transcript);
    SasSpells(c, secret', l', r', transcript');
    if Value(ComputeSas(c, secret, l, r, transcript)) == Value(ComputeSas(c, secret', l', r', transcript')) {
      SpelledOnce(ComputeSas(c, secret, l, r, transcript), ComputeSas(c, secret', l', r', transcript'));
    }
  }
}
