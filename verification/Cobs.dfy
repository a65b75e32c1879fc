/** Consistent Overhead Byte Stuffing, as published by Cheshire and Baker. */
module Cobs {
  import opened Bytes

  /** The number of leading non-zero bytes, up to `limit`. */
  function Run(s: bytes, limit: nat): (r: nat)
    ensures r <= limit && r <= |s|
    ensures forall i :: 0 <= i < r ==> s[i] != 0
    ensures r == limit || r == |s| || s[r] == 0
  {
    if limit == 0 || s == [] || s[0] == 0 then 0 else 1 + Run(s[1..], limit - 1)
  }

  /** Blocks of at most 254 non-zero bytes, each led by its length plus one; the lead of a shorter
      block also stands for the zero after it. */
  function Encode(s: bytes): bytes
    decreases |s|
  {
    var r := Run(s, 254);
    if r == 254 then [0xFF] + s[..254] + Encode(s[254..])
    else if r == |s| then [r + 1] + s
    else [r + 1] + s[..r] + Encode(s[r + 1..])
  }

  function Decode(e: bytes): Option<bytes>
    decreases |e|
  {
    if e == [] then Some([])
    else if e[0] == 0 || e[0] > |e| then None
    else
      var code := e[0];
      if code == |e| then Some(e[1..])
      else
        match Decode(e[code..])
        case None => None
        case Some(rest) => Some(e[1..code] + (if code < 0xFF then [0] else []) + rest)
  }

  lemma {:induction false} EncodeNonEmpty(s: bytes)
    ensures Encode(s) != []
  {
  }

  /** Decoding a block that `more` follows. */
  lemma DecodeBlock(block: bytes, more: bytes)
    requires |block| <= 254 && more != []
    ensures var e := [(|block| + 1) as byte] + block + more;
      Decode(e) == match Decode(more)
                   case None => None
                   case Some(rest) => Some(block + (if |block| < 254 then [0] else []) + rest)
  {
    var code := |block| + 1;
    var e := [code as byte] + block + more;
    assert e[code..] == more;
    assert e[1..code] == block;
  }

  lemma DecodeLast(block: bytes)
    requires |block| < 254
    ensures Decode([(|block| + 1) as byte] + block) == Some(block)
  {
    assert ([(|block| + 1) as byte] + block)[1..] == block;
  }

  lemma {:induction false} RoundTrip(s: bytes)
    ensures Decode(Encode(s)) == Some(s)
    decreases |s|
  {
    var r := Run(s, 254);
    if r == 254 {
      RoundTrip(s[254..]);
      EncodeNonEmpty(s[254..]);
      DecodeBlock(s[..254], Encode(s[254..]));
      assert s == s[..254] + [] + s[254..];
    } else if r == |s| {
      DecodeLast(s);
    } else {
      RoundTrip(s[r + 1..]);
      EncodeNonEmpty(s[r + 1..]);
      DecodeBlock(s[..r], Encode(s[r + 1..]));
      assert s == s[..r] + [0] + s[r + 1..];
    }
  }

  /** Examples as published: a zero, two zeros, a zero inside. */
  lemma KnownEncodings()
    ensures Encode([0]) == [1, 1] && Encode([0, 0]) == [1, 1, 1]
    ensures Encode([0x11, 0x22, 0, 0x33]) == [3, 0x11, 0x22, 2, 0x33]
  {
    EncodeRest([]);
    EncodeToZero([0], 0);
    EncodeToZero([0, 0], 0);
    assert [0, 0][1..] == [0];
    EncodeRest([0x33]);
    EncodeToZero([0x11, 0x22, 0, 0x33], 2);
    assert [0x11, 0x22, 0, 0x33][3..] == [0x33] && [0x11, 0x22, 0, 0x33][..2] == [0x11, 0x22];
  }

  lemma {:induction false} NoZero(s: bytes)
    ensures 0 !in Encode(s)
    decreases |s|
  {
    var r := Run(s, 254);
    if r == 254 {
      NoZero(s[254..]);
    } else if r < |s| {
      NoZero(s[r + 1..]);
    }
  }

  lemma {:induction false} Length(s: bytes)
    ensures |Encode(s)| <= |s| + |s| / 254 + 1
    decreases |s|
  {
    var r := Run(s, 254);
    if r == 254 {
      Length(s[254..]);
    } else if r < |s| {
      Length(s[r + 1..]);
    }
  }

  lemma {:induction false} ShortLength(s: bytes)
    requires |s| < 254
    ensures |Encode(s)| == |s| + 1
    decreases |s|
  {
    var r := Run(s, 254);
    if r < |s| {
      ShortLength(s[r + 1..]);
    }
  }

  lemma {:induction false} RunIs(s: bytes, r: nat)
    requires r <= |s| && r <= 254
    requires forall i :: 0 <= i < r ==> s[i] != 0
    requires r == 254 || r == |s| || s[r] == 0
    ensures Run(s, 254) == r
  {
  }

  lemma EncodeToZero(s: bytes, i: nat)
    requires i < |s| && i < 254 && s[i] == 0
    requires forall j :: 0 <= j < i ==> s[j] != 0
    ensures Encode(s) == [(i + 1) as byte] + s[..i] + Encode(s[i + 1..])
  {
    RunIs(s, i);
  }

  lemma EncodeFullBlock(s: bytes)
    requires |s| >= 254
    requires forall j :: 0 <= j < 254 ==> s[j] != 0
    ensures Encode(s) == [0xFF] + s[..254] + Encode(s[254..])
  {
    RunIs(s, 254);
  }

  lemma EncodeRest(s: bytes)
    requires |s| < 254
    requires forall j :: 0 <= j < |s| ==> s[j] != 0
    ensures Encode(s) == [(|s| + 1) as byte] + s
  {
    RunIs(s, |s|);
  }

  /** `dest` holds the encoding of `source[..start]` up to `lead`, then a lead byte yet to be
      filled in, then the block `source[start..i]`. */
  ghost predicate Encoding(source: bytes, dest: bytes, lead: nat, start: nat, i: nat) {
    && start <= i <= |source| && i - start < 254
    && lead < |dest|
    && (forall j :: start <= j < i ==> source[j] != 0)
    && dest[lead + 1..] == source[start..i]
    && dest[..lead] + Encode(source[start..]) == Encode(source)
  }

  lemma FirstBlock(source: bytes)
    ensures Encoding(source, [0], 0, 0, 0)
  {
    assert source[0..] == source;
    assert [] + Encode(source) == Encode(source);
  }

  /** Filling in the lead byte of the last block of what is encoded so far. */
  lemma CloseBlock(dest: bytes, lead: nat, block: bytes, code: byte, more: bytes, coded: bytes, whole: bytes)
    requires lead < |dest| && dest[lead + 1..] == block
    requires coded == [code] + block + more && dest[..lead] + coded == whole
    ensures dest[lead := code] + more == whole
  {
    assert dest[lead := code] == dest[..lead] + ([code] + block);
  }

  lemma OpenBlock(source: bytes, dest: bytes, i: nat)
    requires i <= |source| && dest + Encode(source[i..]) == Encode(source)
    ensures Encoding(source, dest + [0], |dest|, i, i)
  {
    assert (dest + [0])[..|dest|] == dest && (dest + [0])[|dest| + 1..] == [];
  }

  lemma BlockToZero(source: bytes, start: nat, i: nat, code: byte)
    requires start <= i < |source| && i - start < 254 && source[i] == 0 && code == i - start + 1
    requires forall j :: start <= j < i ==> source[j] != 0
    ensures Encode(source[start..]) == [code] + source[start..i] + Encode(source[i + 1..])
  {
    var rest, n := source[start..], i - start;
    assert rest[..n] == source[start..i] && rest[n + 1..] == source[i + 1..];
    EncodeToZero(rest, n);
  }

  lemma CloseAtZero(source: bytes, dest: bytes, lead: nat, start: nat, i: nat, code: byte)
    requires Encoding(source, dest, lead, start, i) && i < |source| && source[i] == 0 && code == i - start + 1
    ensures Encoding(source, dest[lead := code] + [0], |dest|, i + 1, i + 1)
  {
    BlockToZero(source, start, i, code);
    CloseBlock(dest, lead, source[start..i], code, Encode(source[i + 1..]), Encode(source[start..]), Encode(source));
    OpenBlock(source, dest[lead := code], i + 1);
  }

  lemma CloseFull(source: bytes, dest: bytes, lead: nat, start: nat, i: nat)
    requires Encoding(source, dest, lead, start, i) && i < |source| && source[i] != 0 && i + 1 - start == 254
    ensures Encoding(source, (dest + [source[i]])[lead := 0xFF] + [0], |dest| + 1, i + 1, i + 1)
  {
    var rest, full := source[start..], dest + [source[i]];
    assert rest[..254] == source[start..i + 1] && rest[254..] == source[i + 1..];
    EncodeFullBlock(rest);
    assert full[lead + 1..] == dest[lead + 1..] + [source[i]] == source[start..i + 1];
    assert full[..lead] == dest[..lead];
    CloseBlock(full, lead, source[start..i + 1], 0xFF, Encode(source[i + 1..]), Encode(rest), Encode(source));
    OpenBlock(source, full[lead := 0xFF], i + 1);
  }

  lemma PushByte(source: bytes, dest: bytes, lead: nat, start: nat, i: nat)
    requires Encoding(source, dest, lead, start, i) && i < |source| && source[i] != 0 && i + 1 - start < 254
    ensures Encoding(source, dest + [source[i]], lead, start, i + 1)
  {
    var longer := dest + [source[i]];
    assert longer[lead + 1..] == dest[lead + 1..] + [source[i]];
    assert longer[..lead] == dest[..lead];
  }

  lemma CloseLast(source: bytes, dest: bytes, lead: nat, start: nat, code: byte)
    requires Encoding(source, dest, lead, start, |source|) && code == |source| - start + 1
    ensures dest[lead := code] == Encode(source)
  {
    var block := source[start..];
    assert block == source[start..|source|];
    EncodeRest(block);
    assert Encode(block) == [code] + block + [];
    CloseBlock(dest, lead, block, code, [], Encode(block), Encode(source));
    assert dest[lead := code] + [] == dest[lead := code];
  }

  /** The published encoder: bytes go out as they come in, and the lead of the current block, at
      `lead`, is patched when the block ends. */
  method EncodeInPlace(source: bytes) returns (dest: bytes)
    ensures dest == Encode(source)
  {
    FirstBlock(source);
    dest := [0];
    var lead: nat, code: byte := 0, 1;
    ghost var start: nat := 0;
    for i := 0 to |source|
      invariant code == i - start + 1
      invariant Encoding(source, dest, lead, start, i)
    {
      if source[i] == 0 {
        CloseAtZero(source, dest, lead, start, i, code);
        lead, dest, code, start := |dest|, dest[lead := code] + [0], 1, i + 1;
      } else if code + 1 == 0xFF {
        CloseFull(source, dest, lead, start, i);
        lead, dest, code, start := |dest| + 1, (dest + [source[i]])[lead := 0xFF] + [0], 1, i + 1;
      } else {
        PushByte(source, dest, lead, start, i);
        dest := dest + [source[i]];
        code := code + 1;
      }
    }
    CloseLast(source, dest, lead, start, code);
    dest := dest[lead := code];
  }
}
