/** What a receiver hands over when frames arrive out of order. */
module Reordering {
  import opened Bytes
  import opened SeqRing
  import opened LinkFrames
  import opened Reliability
  import opened ReceiveEffects
  import opened ReceiverRing

  /** A frame and, if it is of a sequenced kind, its number in the peer's unbounded count. */
  datatype Arrival = Arrival(n: nat, frame: Frame, now: int)

  predicate Sequenced(f: Frame) {
    f.flags.Data? || f.flags.Control? || f.flags.Chunk?
  }

  function Frames(arrivals: seq<Arrival>): seq<(Frame, int)> {
    if arrivals == [] then [] else [(arrivals[0].frame, arrivals[0].now)] + Frames(arrivals[1..])
  }

  /** The payload of the first frame with number `n`. */
  function First(arrivals: seq<Arrival>, n: nat): Option<bytes> {
    if arrivals == [] then None
    else if Sequenced(arrivals[0].frame) && arrivals[0].n == n then Some(arrivals[0].frame.payload)
    else First(arrivals[1..], n)
  }

  /** A receiver that has delivered the numbers below `m` and holds only some of the 64 after `m`. */
  ghost predicate Holding(s: State, m: nat) {
    && s.recvNext == Wrap(m) && s.deliverQueue == []
    && HoldsWithin(s.recvBuffer, m, m + 1, m + 64)
  }

  /** Seen from `m`, the buffer holds numbers from `lo` to `hi`. */
  ghost predicate HoldsWithin(buffer: map<u16, bytes>, m: nat, lo: nat, hi: int) {
    forall k :: k in buffer ==> lo <= Ahead(m, k) <= hi
  }

  /** No frame of a sequenced kind comes more than 64 ahead of the awaited one, or half the ring late. */
  ghost predicate InReach(s: State, m: nat, arrivals: seq<Arrival>)
    decreases arrivals
  {
    arrivals == []
    || (&& Reached(m, arrivals[0])
        && var r := OnReceive(s, arrivals[0].frame, arrivals[0].now);
           InReach(r.state, m + |r.delivered|, arrivals[1..]))
  }

  predicate Reached(m: nat, a: Arrival) {
    Sequenced(a.frame) ==> a.frame.seqNo == Wrap(a.n) && a.n <= m + 64 && m <= a.n + 0x8000
  }

  /** What number `n` will be delivered with, if anything: what is buffered, else what comes first. */
  ghost function Source(s: State, m: nat, arrivals: seq<Arrival>, n: nat): Option<bytes> {
    if n <= m + 64 && Wrap(n) in s.recvBuffer then Some(s.recvBuffer[Wrap(n)]) else First(arrivals, n)
  }

  // ---- Room in the buffer ----

  function Slots(m: nat, j: nat): set<u16> {
    if j == 0 then {} else Slots(m, j - 1) + {Wrap(m + j)}
  }

  lemma {:induction false} SlotsSize(m: nat, j: nat)
    ensures |Slots(m, j)| <= j
  {
    if j > 0 { SlotsSize(m, j - 1); }
  }

  lemma {:induction false} InSlots(m: nat, j: nat, n: nat)
    requires m < n <= m + j
    ensures Wrap(n) in Slots(m, j)
  {
    if n < m + j { InSlots(m, j - 1, n); }
  }

  /** A number that is not held finds room. */
  lemma RoomForNew(buffer: map<u16, bytes>, m: nat, n: nat)
    requires HoldsWithin(buffer, m, m + 1, m + 64) && m < n <= m + 64 && Wrap(n) !in buffer
    ensures |buffer| < 64
  {
    forall k | k in buffer ensures k in Slots(m, 64) {
      WrapAhead(m, k);
      InSlots(m, 64, Ahead(m, k));
    }
    InSlots(m, 64, n);
    SlotsSize(m, 64);
    SubsetSmaller(buffer.Keys, Slots(m, 64) - {Wrap(n)});
  }

  lemma {:induction false} SubsetSmaller(a: set<u16>, b: set<u16>)
    requires a <= b
    ensures |a| <= |b|
  {
    if a != {} {
      var k :| k in a;
      SubsetSmaller(a - {k}, b - {k});
    }
  }

  // ---- One frame ----

  /** Everything from `c` up to the first number missing has been taken out, each with its payload. */
  ghost predicate Drained(c: nat, buffer: map<u16, bytes>, hi: int, next: u16, rest: map<u16, bytes>, out: seq<bytes>) {
    var end := c + |out|;
    && next == Wrap(end) && end <= Larger(c, hi + 1)
    && (forall n :: c <= n < end ==> Wrap(n) in buffer && out[n - c] == buffer[Wrap(n)])
    && HoldsWithin(rest, end, end + 1, hi)
    && (forall k :: k in rest ==> k in buffer && rest[k] == buffer[k])
    && (forall k :: k in buffer && end <= Ahead(c, k) ==> k in rest)
  }

  /** Taking the one awaited moves the point of view on. */
  lemma OneTaken(c: nat, buffer: map<u16, bytes>, hi: int)
    requires HoldsWithin(buffer, c, c, hi) && Wrap(c) in buffer
    ensures var less := buffer - {Wrap(c)};
      && |less| < |buffer| && HoldsWithin(less, c + 1, c + 1, hi) && c <= hi
      && (forall k :: k in less ==> Ahead(c + 1, k) == Ahead(c, k))
  {
    var less := buffer - {Wrap(c)};
    assert less.Keys == buffer.Keys - {Wrap(c)};
    assert |less.Keys| < |buffer.Keys|;
    AheadWrap(c, c);
    forall k | k in less ensures c + 1 <= Ahead(c + 1, k) <= hi && Ahead(c + 1, k) == Ahead(c, k) {
      WrapAhead(c, k);
      AheadStep(c, k);
    }
  }

  lemma DrainedMore(c: nat, buffer: map<u16, bytes>, hi: int, next: u16, rest: map<u16, bytes>, out: seq<bytes>,
                    all: seq<bytes>)
    requires Wrap(c) in buffer && c <= hi && all == [buffer[Wrap(c)]] + out
    requires var less := buffer - {Wrap(c)};
      && Drained(c + 1, less, hi, next, rest, out)
      && forall k :: k in less ==> Ahead(c + 1, k) == Ahead(c, k)
    ensures Drained(c, buffer, hi, next, rest, all)
  {
    var less := buffer - {Wrap(c)};
    forall n | c <= n < c + |all| ensures Wrap(n) in buffer && all[n - c] == buffer[Wrap(n)] {
      if n > c { assert Wrap(n) in less && all[n - c] == out[n - c - 1]; }
    }
    AheadWrap(c, c);
    forall k | k in buffer && c + |all| <= Ahead(c, k) ensures k in rest {
      assert k != Wrap(c);
      assert k in less && c + 1 + |out| <= Ahead(c + 1, k);
    }
  }

  lemma {:induction false} DrainTakes(c: nat, buffer: map<u16, bytes>, hi: int)
    requires HoldsWithin(buffer, c, c, hi)
    ensures var (next, rest, out) := Drain(Wrap(c), buffer); Drained(c, buffer, hi, next, rest, out)
    decreases |buffer|
  {
    if Wrap(c) in buffer {
      OneTaken(c, buffer, hi);
      WrapSucc(c);
      var less := buffer - {Wrap(c)};
      DrainTakes(c + 1, less, hi);
      var (next, rest, out) := Drain(Wrap(c + 1), less);
      DrainedMore(c, buffer, hi, next, rest, out, Drain(Wrap(c), buffer).2);
    } else {
      forall k | k in buffer ensures c + 1 <= Ahead(c, k) <= hi {
        WrapAhead(c, k);
      }
      assert Drained(c, buffer, hi, Wrap(c), buffer, []);
    }
  }

  function Larger(a: int, b: int): int {
    if a > b then a else b
  }

  /** The awaited frame: it and what follows it in the buffer are delivered, in order. */
  lemma AwaitedEffect(s: State, m: nat, hi: int, frame: Frame, now: int)
    requires Holding(s, m) && Sequenced(frame) && frame.seqNo == Wrap(m) && HoldsWithin(s.recvBuffer, m, m + 1, hi)
    ensures var r := OnReceive(s, frame, now);
      && r.delivered != [] && r.delivered[0] == frame.payload
      && r.state.deliverQueue == []
      && Drained(m + 1, s.recvBuffer, hi, r.state.recvNext, r.state.recvBuffer, r.delivered[1..])
  {
    BufferEffect(s, frame, now);
    SeenFromNext(s.recvBuffer, m, hi);
    WrapSucc(m);
    DrainTakes(m + 1, s.recvBuffer, hi);
    var out := Drain(Wrap(m + 1), s.recvBuffer).2;
    assert Sequence(s, frame).0.deliverQueue == [frame.payload] + out;
    assert ([frame.payload] + out)[1..] == out;
  }

  lemma SeenFromNext(buffer: map<u16, bytes>, m: nat, hi: int)
    requires HoldsWithin(buffer, m, m + 1, hi)
    ensures HoldsWithin(buffer, m + 1, m + 1, hi)
    ensures forall k :: k in buffer ==> Ahead(m + 1, k) == Ahead(m, k)
  {
    forall k | k in buffer ensures m + 1 <= Ahead(m + 1, k) <= hi && Ahead(m + 1, k) == Ahead(m, k) {
      AheadStep(m, k);
    }
  }

  /** A frame ahead of the awaited one is kept unless its number is there already; nothing is delivered. */
  lemma AheadEffect(s: State, m: nat, n: nat, frame: Frame, now: int)
    requires Holding(s, m) && Sequenced(frame) && frame.seqNo == Wrap(n) && m < n <= m + 64
    ensures var r := OnReceive(s, frame, now);
      && r.delivered == [] && Holding(r.state, m)
      && r.state.recvBuffer == if Wrap(n) in s.recvBuffer then s.recvBuffer else s.recvBuffer[Wrap(n) := frame.payload]
  {
    BufferEffect(s, frame, now);
    RingOrder(m, n);
    AheadWrap(m, n);
    if Wrap(n) !in s.recvBuffer { RoomForNew(s.recvBuffer, m, n); }
  }

  /** A frame delivered before, and one of another kind, change nothing. */
  lemma LateEffect(s: State, m: nat, a: Arrival)
    requires Holding(s, m) && Reached(m, a) && (Sequenced(a.frame) ==> a.n < m)
    ensures var r := OnReceive(s, a.frame, a.now);
      r.delivered == [] && Holding(r.state, m) && r.state.recvBuffer == s.recvBuffer
  {
    BufferEffect(s, a.frame, a.now);
    if Sequenced(a.frame) {
      RingOrder(m, a.n);
      if Wrap(m) == Wrap(a.n) { WrapInjective(m, a.n); }
    }
  }

  // ---- Runs ----

  /** What one arrival leaves to come is what was to come, but for what it delivers. */
  lemma OneArrival(s: State, m: nat, arrivals: seq<Arrival>, n: nat)
    requires Holding(s, m) && arrivals != [] && Reached(m, arrivals[0]) && m <= n
    ensures var r := OnReceive(s, arrivals[0].frame, arrivals[0].now);
      var m' := m + |r.delivered|;
      && Holding(r.state, m')
      && (n < m' ==> Source(s, m, arrivals, n) == Some(r.delivered[n - m]))
      && (n >= m' ==> Source(s, m, arrivals, n) == Source(r.state, m', arrivals[1..], n))
  {
    var a := arrivals[0];
    if !Sequenced(a.frame) || a.n < m {
      LateEffect(s, m, a);
    } else if a.n == m {
      AwaitedArrival(s, m, arrivals, n);
    } else {
      AheadEffect(s, m, a.n, a.frame, a.now);
      if n <= m + 64 && Wrap(n) == Wrap(a.n) { WrapInjective(n, a.n); }
    }
  }

  lemma AwaitedArrival(s: State, m: nat, arrivals: seq<Arrival>, n: nat)
    requires Holding(s, m) && arrivals != [] && Sequenced(arrivals[0].frame) && m <= n
    requires arrivals[0].n == m && arrivals[0].frame.seqNo == Wrap(m)
    ensures var r := OnReceive(s, arrivals[0].frame, arrivals[0].now);
      var m' := m + |r.delivered|;
      && Holding(r.state, m')
      && (n < m' ==> Source(s, m, arrivals, n) == Some(r.delivered[n - m]))
      && (n >= m' ==> Source(s, m, arrivals, n) == Source(r.state, m', arrivals[1..], n))
  {
    var r := OnReceive(s, arrivals[0].frame, arrivals[0].now);
    var m', buffer, rest := m + |r.delivered|, s.recvBuffer, r.state.recvBuffer;
    AwaitedEffect(s, m, m + 64, arrivals[0].frame, arrivals[0].now);
    NotHeld(buffer, m);
    if m < n < m' {
      DrainedNext(buffer, m, r.state.recvNext, rest, r.delivered, n);
    } else if n >= m' {
      RestSource(m, m', buffer, rest, n);
    }
  }

  lemma DrainedNext(buffer: map<u16, bytes>, m: nat, next: u16, rest: map<u16, bytes>, d: seq<bytes>, n: nat)
    requires m < n < m + |d| && Drained(m + 1, buffer, m + 64, next, rest, d[1..])
    ensures n <= m + 64 && Wrap(n) in buffer && d[n - m] == buffer[Wrap(n)]
  {
    assert d[n - m] == d[1..][n - (m + 1)] && Wrap(n) in buffer;
  }

  lemma NotHeld(buffer: map<u16, bytes>, m: nat)
    requires HoldsWithin(buffer, m, m + 1, m + 64)
    ensures Wrap(m) !in buffer
  {
    AheadWrap(m, m);
  }

  /** What is still buffered after draining is found under the same numbers. */
  lemma {:induction false} RestSource(m: nat, m': nat, buffer: map<u16, bytes>, rest: map<u16, bytes>, n: nat)
    requires m < m' <= n && HoldsWithin(buffer, m, m + 1, m + 64) && HoldsWithin(rest, m', m' + 1, m + 64)
    requires forall k :: k in rest ==> k in buffer && rest[k] == buffer[k]
    requires forall k :: k in buffer && m' <= Ahead(m + 1, k) ==> k in rest
    ensures n <= m + 64 && Wrap(n) in buffer <==> n <= m' + 64 && Wrap(n) in rest
  {
    SeenFromNext(buffer, m, m + 64);
    if n <= m + 64 { AheadWrap(m, n); }
    if n <= m' + 64 { AheadWrap(m', n); }
  }

  lemma AppendIndex<T>(p: seq<T>, q: seq<T>, i: nat)
    ensures i < |p| ==> (p + q)[i] == p[i]
    ensures |p| <= i < |p| + |q| ==> (p + q)[i] == q[i - |p|]
  {
  }

  lemma ReceiveFirst(s: State, arrivals: seq<Arrival>)
    requires arrivals != []
    ensures var r := OnReceive(s, arrivals[0].frame, arrivals[0].now);
      ReceiveAll(s, Frames(arrivals)).1 == r.delivered + ReceiveAll(r.state, Frames(arrivals[1..])).1
  {
    assert Frames(arrivals)[1..] == Frames(arrivals[1..]);
  }

  /** In every run whose frames stay in reach, whatever is repeated, overtaken or of another kind in
      between: what is delivered are the numbers from `m` up to the first one that has not come, in
      order, each with the payload that came first. */
  lemma {:induction false} RunDelivers(s: State, m: nat, arrivals: seq<Arrival>, n: nat)
    requires Holding(s, m) && InReach(s, m, arrivals) && m <= n
    ensures var d := ReceiveAll(s, Frames(arrivals)).1;
      && (n < m + |d| ==> Source(s, m, arrivals, n) == Some(d[n - m]))
      && (n == m + |d| ==> Source(s, m, arrivals, n) == None)
    decreases arrivals
  {
    if arrivals == [] {
      NotHeld(s.recvBuffer, m);
    } else {
      var r := OnReceive(s, arrivals[0].frame, arrivals[0].now);
      OneArrival(s, m, arrivals, n);
      var m' := m + |r.delivered|;
      var rest := ReceiveAll(r.state, Frames(arrivals[1..])).1;
      ReceiveFirst(s, arrivals);
      AppendIndex(r.delivered, rest, n - m);
      if n >= m' {
        RunDelivers(r.state, m', arrivals[1..], n);
      }
    }
  }

  /** Nothing has come out of order yet. */
  ghost predicate Fresh(s: State, m: nat) {
    s.recvNext == Wrap(m) && s.deliverQueue == [] && s.recvBuffer == map[]
  }

  /** `d` are the payloads that came first under the numbers from `m` on, up to the first one missing. */
  ghost predicate GaplessPrefix(arrivals: seq<Arrival>, m: nat, d: seq<bytes>) {
    && (forall n :: m <= n < m + |d| ==> First(arrivals, n) == Some(d[n - m]))
    && First(arrivals, m + |d|) == None
  }

  /** From an empty buffer exactly the gapless part of what has come is delivered. */
  lemma DeliversGaplessPrefix(s: State, m: nat, arrivals: seq<Arrival>)
    requires Fresh(s, m) && InReach(s, m, arrivals)
    ensures GaplessPrefix(arrivals, m, ReceiveAll(s, Frames(arrivals)).1)
  {
    var d := ReceiveAll(s, Frames(arrivals)).1;
    forall n | m <= n < m + |d| ensures First(arrivals, n) == Some(d[n - m]) {
      DeliversFirst(s, m, arrivals, n);
    }
    DeliversFirst(s, m, arrivals, m + |d|);
  }

  lemma DeliversFirst(s: State, m: nat, arrivals: seq<Arrival>, n: nat)
    requires Fresh(s, m) && InReach(s, m, arrivals) && m <= n
    ensures var d := ReceiveAll(s, Frames(arrivals)).1;
      && (n < m + |d| ==> First(arrivals, n) == Some(d[n - m]))
      && (n == m + |d| ==> First(arrivals, n) == None)
  {
    RunDelivers(s, m, arrivals, n);
    assert Source(s, m, arrivals, n) == First(arrivals, n);
  }

  // ---- Any order ----

  /** Every frame of a sequenced kind is one of the peer's `payloads`, which are numbered from `m`. */
  predicate Carries(arrivals: seq<Arrival>, m: nat, payloads: seq<bytes>) {
    forall i :: 0 <= i < |arrivals| && Sequenced(arrivals[i].frame) ==>
      var a := arrivals[i];
      && m <= a.n < m + |payloads| && a.frame.seqNo == Wrap(a.n) && a.frame.payload == payloads[a.n - m]
  }

  predicate Comes(arrivals: seq<Arrival>, n: nat) {
    exists i :: 0 <= i < |arrivals| && Sequenced(arrivals[i].frame) && arrivals[i].n == n
  }

  lemma {:induction false} FirstIs(arrivals: seq<Arrival>, m: nat, payloads: seq<bytes>, n: nat)
    requires Carries(arrivals, m, payloads)
    ensures First(arrivals, n).Some? <==> Comes(arrivals, n)
    ensures First(arrivals, n).Some? ==> m <= n < m + |payloads| && First(arrivals, n).value == payloads[n - m]
  {
    if arrivals != [] {
      var rest := arrivals[1..];
      assert forall i :: 0 <= i < |rest| ==> rest[i] == arrivals[i + 1];
      FirstIs(rest, m, payloads, n);
      if Comes(rest, n) {
        var i :| 0 <= i < |rest| && Sequenced(rest[i].frame) && rest[i].n == n;
        assert arrivals[i + 1].n == n;
      }
    }
  }

  /** At most 65 numbers from `base` on never go out of reach. */
  lemma {:induction false} StaysInReach(s: State, m: nat, arrivals: seq<Arrival>, base: nat, payloads: seq<bytes>)
    requires |payloads| <= 65 && Carries(arrivals, base, payloads)
    requires base <= m <= base + |payloads| && Holding(s, m)
    requires HoldsWithin(s.recvBuffer, m, m + 1, base + |payloads| - 1)
    ensures InReach(s, m, arrivals)
    decreases arrivals
  {
    if arrivals != [] {
      var a, top := arrivals[0], base + |payloads| - 1;
      assert forall i :: 0 <= i < |arrivals[1..]| ==> arrivals[1..][i] == arrivals[i + 1];
      ArrivalStays(s, m, a, top);
      var r := OnReceive(s, a.frame, a.now);
      StaysInReach(r.state, m + |r.delivered|, arrivals[1..], base, payloads);
    }
  }

  lemma ArrivalStays(s: State, m: nat, a: Arrival, top: int)
    requires Holding(s, m) && Reached(m, a) && m <= top + 1 && HoldsWithin(s.recvBuffer, m, m + 1, top)
    requires Sequenced(a.frame) ==> a.n <= top <= m + 64
    ensures var r := OnReceive(s, a.frame, a.now);
      var m' := m + |r.delivered|;
      Holding(r.state, m') && m' <= top + 1 && HoldsWithin(r.state.recvBuffer, m', m' + 1, top)
  {
    if !Sequenced(a.frame) || a.n < m {
      LateEffect(s, m, a);
    } else if a.n == m {
      AwaitedEffect(s, m, top, a.frame, a.now);
      var r := OnReceive(s, a.frame, a.now);
      HoldsWider(r.state.recvBuffer, m + |r.delivered|, top, m + |r.delivered| + 64);
    } else {
      AheadEffect(s, m, a.n, a.frame, a.now);
      HoldsOneMore(s.recvBuffer, m, a.n, a.frame.payload, top);
    }
  }

  lemma HoldsWider(buffer: map<u16, bytes>, m: nat, hi: int, more: int)
    requires HoldsWithin(buffer, m, m + 1, hi) && hi <= more
    ensures HoldsWithin(buffer, m, m + 1, more)
  {
  }

  lemma HoldsOneMore(buffer: map<u16, bytes>, m: nat, n: nat, payload: bytes, hi: int)
    requires HoldsWithin(buffer, m, m + 1, hi) && m < n <= hi <= m + 64
    ensures HoldsWithin(buffer[Wrap(n) := payload], m, m + 1, hi)
  {
    AheadWrap(m, n);
  }

  predicate AllCome(arrivals: seq<Arrival>, m: nat, count: nat) {
    forall n :: m <= n < m + count ==> Comes(arrivals, n)
  }

  /** Up to 65 payloads, of which the last is at most 64 ahead of the awaited one: in whatever order
      their frames come and come again, once all are there exactly the payloads have been delivered,
      in order. */
  lemma AnyOrderDelivers(s: State, m: nat, arrivals: seq<Arrival>, payloads: seq<bytes>)
    requires Fresh(s, m) && |payloads| <= 65 && Carries(arrivals, m, payloads)
    requires AllCome(arrivals, m, |payloads|)
    ensures ReceiveAll(s, Frames(arrivals)).1 == payloads
  {
    StaysInReach(s, m, arrivals, m, payloads);
    DeliversGaplessPrefix(s, m, arrivals);
    PrefixIsAll(arrivals, m, payloads, ReceiveAll(s, Frames(arrivals)).1);
  }

  lemma PrefixIsAll(arrivals: seq<Arrival>, m: nat, payloads: seq<bytes>, d: seq<bytes>)
    requires Carries(arrivals, m, payloads) && AllCome(arrivals, m, |payloads|) && GaplessPrefix(arrivals, m, d)
    ensures d == payloads
  {
    FirstIs(arrivals, m, payloads, m + |d|);
    if |d| > |payloads| {
      FirstIs(arrivals, m, payloads, m + |payloads|);
    }
    forall i | 0 <= i < |d| ensures i < |payloads| && d[i] == payloads[i] {
      var n := m + i;
      FirstIs(arrivals, m, payloads, n);
      assert First(arrivals, n) == Some(d[n - m]);
    }
  }

  /** A frame up to half the ring ahead is lost exactly if 64 others are held already; what is held is
      not overwritten, and nothing else is touched. */
  lemma KeptIff(s: State, frame: Frame, now: int)
    requires Sequenced(frame) && 0 < (frame.seqNo - s.recvNext) % 0x1_0000 < 0x8000
    ensures var t := OnReceive(s, frame, now).state.recvBuffer;
      && (frame.seqNo in t <==> frame.seqNo in s.recvBuffer || |s.recvBuffer| < 64)
      && (forall k :: k in s.recvBuffer ==> k in t && t[k] == s.recvBuffer[k])
      && (forall k :: k in t ==> k in s.recvBuffer || (k == frame.seqNo && t[k] == frame.payload))
  {
    BufferEffect(s, frame, now);
  }
}
