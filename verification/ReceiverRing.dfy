/** What a receiver keeps true whatever frames any peer sends it. */
module ReceiverRing {
  import opened Bytes
  import opened SeqRing
  import opened LinkFrames
  import opened Reliability
  import opened ReceiveEffects

  /** `total` payloads were delivered, the receive counter is that number on the ring, and every
      buffered position is ahead of it by 1 to 2^15 - 1. */
  ghost predicate RingOk(s: State, total: nat) {
    && s.recvNext == Wrap(total)
    && s.deliverQueue == []
    && |s.recvBuffer| <= MAX_RECV_BUFFER
    && AllAhead(s.recvBuffer, s.recvNext)
  }

  ghost predicate AllAhead(buffer: map<u16, bytes>, next: u16) {
    forall k :: k in buffer ==> 1 <= WrappingSub(k, next) < 0x8000
  }

  lemma {:induction false} DrainRing(m: nat, buffer: map<u16, bytes>)
    requires forall k :: k in buffer ==> Ahead(m, k) < m + 0x7fff
    ensures var (n, b, d) := Drain(Wrap(m), buffer);
      && n == Wrap(m + |d|)
      && |b| + |d| == |buffer|
      && (forall k :: k in b ==> m + |d| < Ahead(m + |d|, k) < m + |d| + 0x7fff)
    decreases |buffer|
  {
    if Wrap(m) in buffer {
      DrainOne(m, buffer);
      DrainRing(m + 1, buffer - {Wrap(m)});
    } else {
      OthersAhead(m, buffer);
    }
  }

  lemma OthersAhead(m: nat, buffer: map<u16, bytes>)
    requires forall k :: k in buffer ==> Ahead(m, k) < m + 0x7fff
    ensures forall k :: k in buffer && k != Wrap(m) ==> m < Ahead(m, k) && Ahead(m + 1, k) == Ahead(m, k)
  {
    forall k | k in buffer && k != Wrap(m) ensures m < Ahead(m, k) && Ahead(m + 1, k) == Ahead(m, k) {
      WrapAhead(m, k);
      AheadStep(m, k);
    }
  }

  lemma DrainOne(m: nat, buffer: map<u16, bytes>)
    requires forall k :: k in buffer ==> Ahead(m, k) < m + 0x7fff
    requires Wrap(m) in buffer
    ensures var rest := buffer - {Wrap(m)};
      var (n, b, d) := Drain(Wrap(m + 1), rest);
      && |rest| == |buffer| - 1
      && (forall k :: k in rest ==> Ahead(m + 1, k) < m + 1 + 0x7fff)
      && Drain(Wrap(m), buffer) == (n, b, [buffer[Wrap(m)]] + d)
  {
    var rest := buffer - {Wrap(m)};
    assert rest.Keys == buffer.Keys - {Wrap(m)};
    assert |rest.Keys| == |buffer.Keys| - 1;
    OthersAhead(m, buffer);
    WrapSucc(m);
  }

  lemma BufferAhead(s: State, total: nat)
    requires RingOk(s, total)
    ensures forall k :: k in s.recvBuffer ==> Ahead(total + 1, k) < total + 1 + 0x7fff
  {
    forall k | k in s.recvBuffer ensures Ahead(total + 1, k) < total + 1 + 0x7fff {
      AheadStep(total, k);
    }
  }

  lemma DrainedRing(s: State, total: nat, buffer: map<u16, bytes>)
    requires |buffer| <= MAX_RECV_BUFFER
    requires forall k :: k in buffer ==> total < Ahead(total, k) < total + 0x7fff
    ensures RingOk(s.(recvNext := Wrap(total), recvBuffer := buffer, deliverQueue := []), total)
  {
  }

  lemma InOrderKeepsRing(s: State, total: nat, frame: Frame)
    requires RingOk(s, total) && frame.seqNo == s.recvNext
    ensures var t := Sequence(s, frame).0;
      RingOk(t.(deliverQueue := []), total + |t.deliverQueue|)
  {
    BufferAhead(s, total);
    WrapSucc(total);
    DrainRing(total + 1, s.recvBuffer);
    var (n, b, d) := Drain(Wrap(total + 1), s.recvBuffer);
    assert Sequence(s, frame).0 == s.(recvNext := n, recvBuffer := b, deliverQueue := [frame.payload] + d);
    DrainedRing(s, total + 1 + |d|, b);
  }

  lemma SequenceKeepsRing(s: State, total: nat, frame: Frame)
    requires RingOk(s, total)
    ensures var t := Sequence(s, frame).0;
      RingOk(t.(deliverQueue := []), total + |t.deliverQueue|)
  {
    if frame.seqNo == s.recvNext {
      InOrderKeepsRing(s, total, frame);
    }
  }

  lemma ReceiveKeepsRing(s: State, total: nat, frame: Frame, now: int)
    requires RingOk(s, total)
    ensures var r := OnReceive(s, frame, now); RingOk(r.state, total + |r.delivered|)
  {
    BufferEffect(s, frame, now);
    SequenceKeepsRing(s, total, frame);
  }

  /** Receiving frames one after another: the state reached and everything delivered. */
  ghost function ReceiveAll(s: State, frames: seq<(Frame, int)>): (State, seq<bytes>)
    decreases frames
  {
    if frames == [] then (s, [])
    else
      var r := OnReceive(s, frames[0].0, frames[0].1);
      var (t, rest) := ReceiveAll(r.state, frames[1..]);
      (t, r.delivered + rest)
  }

  lemma {:induction false} RunKeepsRing(s: State, total: nat, frames: seq<(Frame, int)>)
    requires RingOk(s, total)
    ensures var (t, delivered) := ReceiveAll(s, frames); RingOk(t, total + |delivered|)
    decreases frames
  {
    if frames != [] {
      ReceiveKeepsRing(s, total, frames[0].0, frames[0].1);
      var r := OnReceive(s, frames[0].0, frames[0].1);
      RunKeepsRing(r.state, total + |r.delivered|, frames[1..]);
    }
  }

  /** Arbitrary frames from an arbitrary peer leave a fresh receiver's ring in order. */
  lemma AnyFramesKeepRing(rto: nat, window: nat, frames: seq<(Frame, int)>)
    ensures var (t, delivered) := ReceiveAll(NewState(rto, window), frames); RingOk(t, |delivered|)
  {
    var s, zero := NewState(rto, window), 0;
    var (t, delivered) := ReceiveAll(s, frames);
    RunKeepsRing(s, zero, frames);
    assert zero + |delivered| == |delivered|;
  }
}
