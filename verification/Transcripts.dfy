/** The handshake transcript: step bodies 1, 2, 3 in order, each after its length. */
module Transcripts {
  import opened Bytes

  const STEPS := 3
  const LENGTH_LEN: nat := 4

  datatype Transcript = Transcript(data: bytes, nextStep: nat)

  const Empty := Transcript([], 1)

  /** A body after its length in 32 bits, of which a longer length keeps the low ones. */
  function LengthPrefixed(body: bytes): bytes {
    BigEndian(|body|, LENGTH_LEN) + body
  }

  function Append(t: Transcript, step: nat, body: bytes): (Transcript, Result<Unit>) {
    if step != t.nextStep then (t, Err("transcript out of order"))
    else (Transcript(t.data + LengthPrefixed(body), t.nextStep + 1), Ok(Unit))
  }

  predicate Complete(t: Transcript) {
    t.nextStep > STEPS
  }

  /** The bytes after the bodies of all steps. */
  function Joined(bodies: seq<bytes>): bytes {
    if bodies == [] then []
    else Joined(bodies[..|bodies| - 1]) + LengthPrefixed(bodies[|bodies| - 1])
  }

  /** `t` holds exactly these bodies. */
  predicate Holds(t: Transcript, bodies: seq<bytes>) {
    t == Transcript(Joined(bodies), |bodies| + 1)
  }

  lemma AppendHolds(t: Transcript, bodies: seq<bytes>, step: nat, body: bytes)
    requires Holds(t, bodies)
    ensures var (next, r) := Append(t, step, body);
      && (r.Ok? <==> step == |bodies| + 1)
      && Holds(next, if r.Ok? then bodies + [body] else bodies)
  {
    assert (bodies + [body])[..|bodies|] == bodies;
  }

  class HandshakeTranscript {
    var data: bytes
    var nextStep: nat

    ghost function St(): Transcript
      reads this
    {
      Transcript(data, nextStep)
    }

    constructor ()
      ensures St() == Empty
    {
      data, nextStep := [], 1;
    }

    method AppendBody(step: nat, body: bytes) returns (r: Result<Unit>)
      modifies this
      ensures (St(), r) == Append(old(St()), step, body)
    {
      if step != nextStep {
        return Err("transcript out of order");
      }
      nextStep := nextStep + 1;
      data := data + (BigEndian(|body|, LENGTH_LEN) + body);
      return Ok(Unit);
    }
  }

  // ---- The transcript says what the bodies are ----

  predicate Short(body: bytes) {
    |body| < 0x1_0000_0000
  }

  predicate AllShort(bodies: seq<bytes>) {
    forall i :: 0 <= i < |bodies| ==> Short(bodies[i])
  }

  lemma PrefixDetermines(n: bytes, x: bytes, rest: bytes, m: bytes, y: bytes, rest': bytes)
    requires |n| == |m| && (n == m ==> |x| == |y|)
    requires n + x + rest == m + y + rest'
    ensures x == y && rest == rest'
  {
    Reassociate(n, x, rest);
    Reassociate(m, y, rest');
    SameSplit(n, x + rest, m, y + rest');
    SameSplit(x, rest, y, rest');
  }

  lemma SameFirst(x: bytes, rest: bytes, y: bytes, rest': bytes)
    requires Short(x) && Short(y) && LengthPrefixed(x) + rest == LengthPrefixed(y) + rest'
    ensures x == y && rest == rest'
  {
    var n, m := BigEndian(|x|, LENGTH_LEN), BigEndian(|y|, LENGTH_LEN);
    if n == m {
      assert Power256(LENGTH_LEN) == 0x1_0000_0000;
      BigEndianInjective(|x|, |y|, LENGTH_LEN);
    }
    PrefixDetermines(n, x, rest, m, y, rest');
  }

  /** The same bytes, read from the front. */
  function JoinedFront(bodies: seq<bytes>): bytes {
    if bodies == [] then [] else LengthPrefixed(bodies[0]) + JoinedFront(bodies[1..])
  }

  lemma {:induction false} JoinedFrontSnoc(bodies: seq<bytes>, body: bytes)
    ensures JoinedFront(bodies + [body]) == JoinedFront(bodies) + LengthPrefixed(body)
  {
    if bodies == [] {
      assert [body][1..] == [];
      assert LengthPrefixed(body) + [] == LengthPrefixed(body) == [] + LengthPrefixed(body);
    } else {
      assert (bodies + [body])[1..] == bodies[1..] + [body];
      JoinedFrontSnoc(bodies[1..], body);
      Reassociate(LengthPrefixed(bodies[0]), JoinedFront(bodies[1..]), LengthPrefixed(body));
    }
  }

  lemma {:induction false} JoinedIsFront(bodies: seq<bytes>)
    ensures Joined(bodies) == JoinedFront(bodies)
  {
    if bodies != [] {
      var front, last := bodies[..|bodies| - 1], bodies[|bodies| - 1];
      JoinedIsFront(front);
      JoinedFrontSnoc(front, last);
      assert front + [last] == bodies;
    }
  }

  lemma {:induction false} FrontInjective(p: seq<bytes>, q: seq<bytes>)
    requires AllShort(p) && AllShort(q) && JoinedFront(p) == JoinedFront(q)
    ensures p == q
  {
    if p != [] && q != [] {
      SameFirst(p[0], JoinedFront(p[1..]), q[0], JoinedFront(q[1..]));
      FrontInjective(p[1..], q[1..]);
      assert p == [p[0]] + p[1..] && q == [q[0]] + q[1..];
    }
  }

  /** With bodies below 2^32 bytes, equal transcripts have equal bodies. */
  lemma TranscriptInjective(p: seq<bytes>, q: seq<bytes>)
    requires AllShort(p) && AllShort(q)
    ensures Joined(p) == Joined(q) <==> p == q
  {
    JoinedIsFront(p);
    JoinedIsFront(q);
    if Joined(p) == Joined(q) {
      FrontInjective(p, q);
    }
  }

  predicate Zeros(s: bytes) {
    forall i :: 0 <= i < |s| ==> s[i] == 0
  }

  /** At 2^32 bytes the length is cut and the transcript no longer tells which body was long. */
  lemma TranscriptAmbiguousPastLimit(long: bytes)
    requires |long| == 0x1_0000_0000 && Zeros(long)
    ensures Joined([long, [], []]) == Joined([[], long, []])
  {
    var z, e: bytes := BigEndian(0, LENGTH_LEN), [];
    assert Power256(LENGTH_LEN) == 0x1_0000_0000;
    BigEndianWraps(0, LENGTH_LEN);
    ZeroLength(LENGTH_LEN);
    assert z + e == z;
    AllZeros(z, long);
    SwapLength(z, long);
  }

  lemma {:induction false} ZeroLength(width: nat)
    ensures Zeros(BigEndian(0, width))
    decreases width
  {
    if width > 0 {
      ZeroLength(width - 1);
    }
  }

  lemma AllZeros(z: bytes, long: bytes)
    requires Zeros(z) && Zeros(long)
    ensures z + long == long + z
  {
  }

  lemma SwapLength(z: bytes, long: bytes)
    requires LengthPrefixed([]) == z && LengthPrefixed(long) == z + long && z + long == long + z
    ensures Joined([long, [], []]) == Joined([[], long, []])
  {
    JoinedThree(long, [], []);
    JoinedThree([], long, []);
    Reassociate(z, long, z);
    Reassociate(z, z, long);
  }

  lemma JoinedThree(x: bytes, y: bytes, w: bytes)
    ensures Joined([x, y, w]) == LengthPrefixed(x) + LengthPrefixed(y) + LengthPrefixed(w)
  {
    JoinedSnoc([], x);
    JoinedSnoc([x], y);
    JoinedSnoc([x, y], w);
    assert [] + [x] == [x] && [x] + [y] == [x, y] && [x, y] + [w] == [x, y, w];
    assert [] + LengthPrefixed(x) == LengthPrefixed(x);
  }

  lemma JoinedSnoc(bodies: seq<bytes>, body: bytes)
    ensures Joined(bodies + [body]) == Joined(bodies) + LengthPrefixed(body)
  {
    assert (bodies + [body])[..|bodies|] == bodies;
  }
}
