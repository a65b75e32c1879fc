/** Cutting the received bytes into frames at zero bytes, however the bytes arrive. */
module ByteStream {
  import opened Bytes
  import opened LinkFrames
  import opened FrameCodec

  const GARBAGE_LIMIT := 4 * MAX_FRAME_SIZE

  function FirstZero(s: bytes): (i: nat)
    requires 0 in s
    ensures i < |s| && s[i] == 0 && 0 !in s[..i]
  {
    if s[0] == 0 then 0
    else
      var i := 1 + FirstZero(s[1..]);
      assert s[..i] == [s[0]] + s[1..][..i - 1];
      i
  }

  /** The non-empty stretches before each zero byte, and what follows the last zero. */
  function Segments(s: bytes): (r: (seq<bytes>, bytes))
    ensures 0 !in r.1
    decreases |s|
  {
    if 0 !in s then ([], s)
    else
      var i := FirstZero(s);
      var (more, rest) := Segments(s[i + 1..]);
      ((if i == 0 then [] else [s[..i]]) + more, rest)
  }

  /** One call of `feed`: the segments it takes out and the bytes it keeps. */
  function Feed(buffer: bytes, data: bytes): (seq<bytes>, bytes) {
    var s := buffer + data;
    if |s| > GARBAGE_LIMIT && 0 !in s then ([], []) else Segments(s)
  }

  /** Bytes without a delimiter are kept exactly up to four frames of the largest size. */
  lemma KeptWithoutDelimiterIff(buffer: bytes, data: bytes)
    requires 0 !in buffer + data
    ensures Feed(buffer, data) == ([], if |buffer + data| <= 4 * 4109 then buffer + data else [])
  {
  }

  function FeedAll(buffer: bytes, pieces: seq<bytes>): (seq<bytes>, bytes)
    decreases pieces
  {
    if pieces == [] then ([], buffer)
    else
      var (now, kept) := Feed(buffer, pieces[0]);
      var (later, rest) := FeedAll(kept, pieces[1..]);
      (now + later, rest)
  }

  function Concat(pieces: seq<bytes>): bytes {
    if pieces == [] then [] else pieces[0] + Concat(pieces[1..])
  }

  // ---- Segments ----

  lemma {:induction false} FirstZeroAt(e: bytes, q: bytes)
    requires 0 !in e
    ensures 0 in e + [0] + q && FirstZero(e + [0] + q) == |e|
  {
    var s := e + [0] + q;
    assert s[|e|] == 0;
    if e != [] {
      assert s[0] == e[0];
      assert s[1..] == e[1..] + [0] + q;
      FirstZeroAt(e[1..], q);
    }
  }

  function AsSegment(e: bytes): seq<bytes> {
    if e == [] then [] else [e]
  }

  lemma SegmentsAtZero(e: bytes, q: bytes)
    requires 0 !in e
    ensures Segments(e + [0] + q) == (AsSegment(e) + Segments(q).0, Segments(q).1)
  {
    var s := e + [0] + q;
    FirstZeroAt(e, q);
    assert s[..|e|] == e && s[|e| + 1..] == q;
  }

  /** What is kept stands for everything since the last zero byte. */
  ghost predicate Resumes(s: bytes, q: bytes) {
    && Segments(s + q).0 == Segments(s).0 + Segments(Segments(s).1 + q).0
    && Segments(s + q).1 == Segments(Segments(s).1 + q).1
  }

  lemma ResumesPastZero(e: bytes, t: bytes, q: bytes)
    requires 0 !in e && Resumes(t, q)
    ensures Resumes(e + [0] + t, q)
  {
    var a, b, c := AsSegment(e), Segments(t).0, Segments(Segments(t).1 + q).0;
    SegmentsAtZero(e, t);
    SegmentsAtZero(e, t + q);
    Reassociate(e + [0], t, q);
    Reassociate(a, b, c);
  }

  lemma {:induction false} SegmentsResume(s: bytes, q: bytes)
    ensures Resumes(s, q)
    decreases |s|
  {
    if 0 in s {
      var i := FirstZero(s);
      SplitAtZero(s, i);
      SegmentsResume(s[i + 1..], q);
      ResumesPastZero(s[..i], s[i + 1..], q);
    } else {
      assert Segments(s) == ([], s);
    }
  }

  lemma SplitAtZero(s: bytes, i: nat)
    requires i < |s| && s[i] == 0
    ensures s == s[..i] + [0] + s[i + 1..]
  {
  }

  lemma {:induction false} NothingKeptAfterZero(p: bytes)
    ensures Segments(p + [0]).1 == []
    decreases |p|
  {
    if 0 in p {
      var i := FirstZero(p);
      assert p + [0] == p[..i] + [0] + (p[i + 1..] + [0]);
      SegmentsAtZero(p[..i], p[i + 1..] + [0]);
      NothingKeptAfterZero(p[i + 1..]);
    } else {
      assert p + [0] == p + [0] + [];
      SegmentsAtZero(p, []);
    }
  }

  lemma {:induction false} KeptIsSuffix(s: bytes)
    ensures |Segments(s).1| <= |s| && Segments(s).1 == s[|s| - |Segments(s).1|..]
    decreases |s|
  {
    if 0 in s {
      var i := FirstZero(s);
      KeptIsSuffix(s[i + 1..]);
    }
  }

  // ---- Splitting does not matter ----

  predicate ZeroWithin(s: bytes, i: nat)
    requires i + GARBAGE_LIMIT < |s|
  {
    exists k :: i <= k <= i + GARBAGE_LIMIT && s[k] == 0
  }

  /** Every stretch longer than the garbage limit holds a zero byte. */
  ghost predicate ShortRuns(s: bytes) {
    forall i: nat :: i + GARBAGE_LIMIT < |s| ==> ZeroWithin(s, i)
  }

  lemma ShortRunsSuffix(s: bytes, i: nat)
    requires ShortRuns(s) && i <= |s|
    ensures ShortRuns(s[i..])
  {
    forall j: nat | j + GARBAGE_LIMIT < |s[i..]| ensures ZeroWithin(s[i..], j) {
      assert ZeroWithin(s, i + j);
      var k :| i + j <= k <= i + j + GARBAGE_LIMIT && s[k] == 0;
      assert s[i..][k - i] == 0;
    }
  }

  lemma LongHasZero(s: bytes, more: bytes)
    requires ShortRuns(s + more) && |s| > GARBAGE_LIMIT
    ensures 0 in s
  {
    assert ZeroWithin(s + more, 0);
    var k :| 0 <= k <= GARBAGE_LIMIT && (s + more)[k] == 0;
    assert s[k] == 0;
  }

  /** On a stream with short runs the garbage rule never fires, and the pieces it comes in make no
      difference. */
  lemma {:induction false} SplitIndependent(buffer: bytes, pieces: seq<bytes>)
    requires 0 !in buffer && ShortRuns(buffer + Concat(pieces))
    ensures FeedAll(buffer, pieces) == Segments(buffer + Concat(pieces))
    decreases |pieces|
  {
    if pieces == [] {
      assert buffer + Concat(pieces) == buffer;
    } else {
      var s, more := buffer + pieces[0], Concat(pieces[1..]);
      assert buffer + Concat(pieces) == s + more;
      if |s| > GARBAGE_LIMIT {
        LongHasZero(s, more);
      }
      SegmentsResume(s, more);
      KeptShort(s, more);
      SplitIndependent(Segments(s).1, pieces[1..]);
    }
  }

  lemma KeptShort(s: bytes, more: bytes)
    requires ShortRuns(s + more)
    ensures ShortRuns(Segments(s).1 + more)
  {
    KeptIsSuffix(s);
    var n := |s| - |Segments(s).1|;
    assert Segments(s).1 + more == (s + more)[n..];
    ShortRunsSuffix(s + more, n);
  }

  /** After any bytes and a delimiter, reading goes on exactly as if the stream began there. */
  lemma {:induction false} Resynchronises(buffer: bytes, pieces: seq<bytes>, garbage: bytes, stream: bytes)
    returns (junk: seq<bytes>)
    requires 0 !in buffer && ShortRuns(stream)
    requires Concat(pieces) == garbage + [0] + stream
    ensures FeedAll(buffer, pieces) == (junk + Segments(stream).0, Segments(stream).1)
    decreases |pieces|
  {
    var piece, tail := pieces[0], Concat(pieces[1..]);
    assert piece + tail == garbage + [0] + stream;
    if |piece| <= |garbage| {
      var (now, kept) := Feed(buffer, piece);
      assert tail == garbage[|piece|..] + [0] + stream by { assert tail == (piece + tail)[|piece|..]; }
      var later := Resynchronises(kept, pieces[1..], garbage[|piece|..], stream);
      junk := now + later;
      Reassociate(now, later, Segments(stream).0);
    } else {
      var n := |piece| - |garbage| - 1;
      assert piece == garbage + [0] + stream[..n] by { assert piece == (piece + tail)[..|piece|]; }
      assert tail == stream[n..] by { assert tail == (piece + tail)[|piece|..]; }
      junk := CrossDelimiter(buffer, pieces, garbage, stream, n);
    }
  }

  lemma CrossDelimiter(buffer: bytes, pieces: seq<bytes>, garbage: bytes, stream: bytes, n: nat)
    returns (junk: seq<bytes>)
    requires ShortRuns(stream) && n <= |stream|
    requires pieces != [] && pieces[0] == garbage + [0] + stream[..n] && Concat(pieces[1..]) == stream[n..]
    ensures FeedAll(buffer, pieces) == (junk + Segments(stream).0, Segments(stream).1)
  {
    var head, tail := stream[..n], stream[n..];
    assert head + tail == stream;
    junk := ResumeAfterGarbage(buffer, garbage, head);
    var kept := Segments(head).1;
    SegmentsResume(head, tail);
    KeptShort(head, tail);
    SplitIndependent(kept, pieces[1..]);
    Reassociate(junk, Segments(head).0, Segments(kept + tail).0);
  }

  lemma ResumeAfterGarbage(buffer: bytes, garbage: bytes, head: bytes) returns (junk: seq<bytes>)
    ensures Feed(buffer, garbage + [0] + head) == (junk + Segments(head).0, Segments(head).1)
  {
    var s := buffer + garbage + [0];
    assert buffer + (garbage + [0] + head) == s + head;
    assert (s + head)[|s| - 1] == 0;
    SegmentsResume(s, head);
    NothingKeptAfterZero(buffer + garbage);
    assert [] + head == head;
    junk := Segments(s).0;
  }

  // ---- Streams of frames ----

  predicate AllEncodable(frames: seq<Frame>) {
    forall i :: 0 <= i < |frames| ==> Encodable(frames[i])
  }

  function Stream(frames: seq<Frame>): bytes
    requires AllEncodable(frames)
  {
    if frames == [] then [] else EncodeFrame(frames[0]) + Stream(frames[1..])
  }

  function StuffedAll(frames: seq<Frame>): seq<bytes>
    requires AllEncodable(frames)
  {
    if frames == [] then [] else [Stuffed(frames[0])] + StuffedAll(frames[1..])
  }

  /** The frames among a list of segments; the others are dropped. */
  function DecodeAll(segments: seq<bytes>): seq<Frame> {
    if segments == [] then []
    else
      var r := DecodeFrame(segments[0]);
      (if r.Ok? then [r.frame] else []) + DecodeAll(segments[1..])
  }

  lemma {:induction false} DecodeAllConcat(p: seq<bytes>, q: seq<bytes>)
    ensures DecodeAll(p + q) == DecodeAll(p) + DecodeAll(q)
  {
    if p == [] {
      assert p + q == q;
    } else {
      var r := DecodeFrame(p[0]);
      var head := if r.Ok? then [r.frame] else [];
      DecodeAllConcat(p[1..], q);
      assert (p + q)[0] == p[0] && (p + q)[1..] == p[1..] + q;
      Reassociate(head, DecodeAll(p[1..]), DecodeAll(q));
    }
  }

  lemma {:induction false} StuffedAllDecodes(frames: seq<Frame>)
    requires AllEncodable(frames)
    ensures DecodeAll(StuffedAll(frames)) == frames
  {
    if frames != [] {
      RoundTrip(frames[0]);
      StuffedAllDecodes(frames[1..]);
      assert StuffedAll(frames)[1..] == StuffedAll(frames[1..]);
    }
  }

  lemma {:induction false} StreamSegments(frames: seq<Frame>)
    requires AllEncodable(frames)
    ensures Segments(Stream(frames)) == (StuffedAll(frames), [])
    ensures ShortRuns(Stream(frames))
  {
    if frames != [] {
      WireShape(frames[0]);
      StreamSegments(frames[1..]);
      SegmentsAtZero(Stuffed(frames[0]), Stream(frames[1..]));
      ShortRunsAppend(Stuffed(frames[0]), Stream(frames[1..]));
    }
  }

  lemma ShortRunsAppend(e: bytes, stream: bytes)
    requires |e| <= GARBAGE_LIMIT && ShortRuns(stream)
    ensures ShortRuns(e + [0] + stream)
  {
    var s := e + [0] + stream;
    forall i: nat | i + GARBAGE_LIMIT < |s| ensures ZeroWithin(s, i) {
      if i <= |e| {
        assert s[|e|] == 0;
      } else {
        assert ZeroWithin(stream, i - |e| - 1);
        var k :| i - |e| - 1 <= k <= i - |e| - 1 + GARBAGE_LIMIT && stream[k] == 0;
        assert s[k + |e| + 1] == 0;
      }
    }
  }

  /** Whatever pieces the encodings of some frames arrive in, exactly these frames come out, in
      order, and nothing is left over. */
  lemma FramesComeOut(frames: seq<Frame>, pieces: seq<bytes>)
    requires AllEncodable(frames) && Concat(pieces) == Stream(frames)
    ensures var (segments, rest) := FeedAll([], pieces);
      DecodeAll(segments) == frames && rest == []
  {
    StreamSegments(frames);
    StuffedAllDecodes(frames);
    assert [] + Concat(pieces) == Stream(frames);
    SplitIndependent([], pieces);
  }

  /** After any garbage that ends in a delimiter, and whatever was buffered before it, all the
      frames that follow still come out. */
  lemma FramesComeOutAfterGarbage(buffer: bytes, garbage: bytes, frames: seq<Frame>, pieces: seq<bytes>)
    returns (junk: seq<Frame>)
    requires 0 !in buffer && AllEncodable(frames)
    requires Concat(pieces) == garbage + [0] + Stream(frames)
    ensures var (segments, rest) := FeedAll(buffer, pieces);
      DecodeAll(segments) == junk + frames && rest == []
  {
    StreamSegments(frames);
    StuffedAllDecodes(frames);
    var segments := Resynchronises(buffer, pieces, garbage, Stream(frames));
    DecodeAllConcat(segments, StuffedAll(frames));
    junk := DecodeAll(segments);
  }
}
