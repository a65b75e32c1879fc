/**
 The sliding-window reliability layer: `State` and the functions on it say what every call does,
 and the class carries the fields and loops of the implementation.
 */
module Reliability {
  import opened Bytes
  import opened SeqRing
  import opened LinkFrames

  const MAX_RETRIES := 12
  const MAX_RECV_BUFFER := 64

  datatype Entry = Entry(frame: Frame, sentAt: int, retries: nat)

  datatype State = State(
    sendSeq: u16, recvNext: u16, sendAck: u16,
    inflight: map<u16, Entry>, recvBuffer: map<u16, bytes>, deliverQueue: seq<bytes>,
    rto: nat, windowSize: nat, dupAckCount: nat, lastAck: u16, failed: bool)

  datatype Received = Received(state: State, responses: seq<Frame>, delivered: seq<bytes>)

  function NewState(rto: nat, windowSize: nat): State {
    State(0, 0, 0, map[], map[], [], rto, windowSize, 0, 0, false)
  }

  // ---- Sending ----

  predicate Accepts(s: State, payload: bytes) {
    |s.inflight| < s.windowSize && |payload| <= MAX_PAYLOAD_SIZE
  }

  function SentFrame(s: State, payload: bytes): Frame {
    DataFrame(s.sendSeq, s.sendAck, payload)
  }

  function AfterSend(s: State, payload: bytes, now: int): State {
    s.(sendSeq := WrappingAdd(s.sendSeq, 1),
       inflight := s.inflight[s.sendSeq := Entry(SentFrame(s, payload), now, 0)])
  }

  // ---- Acknowledgements ----

  /** Make an entry due at once and count the attempt. */
  function Hurry(e: Entry, now: int, rto: nat): Entry {
    e.(sentAt := now - rto, retries := e.retries + 1)
  }

  ghost predicate IsMin(keys: set<u16>, k: u16) {
    k in keys && forall j :: j in keys ==> k <= j
  }

  lemma MinExists(keys: set<u16>)
    requires keys != {}
    ensures exists k :: IsMin(keys, k)
  {
    var k :| k in keys;
    var rest := keys - {k};
    if rest != {} {
      MinExists(rest);
      var m :| IsMin(rest, m);
      assert forall j :: j in keys ==> j == k || j in rest;
      assert IsMin(keys, if k <= m then k else m);
    } else {
      assert forall j :: j in keys ==> j == k || j in rest;
      assert IsMin(keys, k);
    }
  }

  ghost function MinKey(keys: set<u16>): (k: u16)
    requires keys != {}
    ensures IsMin(keys, k)
  {
    MinExists(keys);
    var k :| IsMin(keys, k);
    k
  }

  /** The duplicate-ACK counter: the third repetition hurries the numerically smallest frame. */
  ghost function CountAck(s: State, ack: u16, now: int): State {
    if ack != s.lastAck then s.(dupAckCount := 0, lastAck := ack)
    else if s.dupAckCount + 1 < 3 then s.(dupAckCount := s.dupAckCount + 1)
    else if s.inflight.Keys == {} then s.(dupAckCount := 0)
    else
      var k := MinKey(s.inflight.Keys);
      s.(dupAckCount := 0, inflight := s.inflight[k := Hurry(s.inflight[k], now, s.rto)])
  }

  function Unacked(inflight: map<u16, Entry>, ack: u16): map<u16, Entry> {
    map k | k in inflight && !SeqLt(k, ack) :: inflight[k]
  }

  ghost function HandleAck(s: State, ack: u16, now: int): State {
    var t := CountAck(s, ack, now);
    t.(inflight := Unacked(t.inflight, ack))
  }

  function HandleNack(s: State, missing: u16, now: int): State {
    if missing in s.inflight
    then s.(inflight := s.inflight[missing := Hurry(s.inflight[missing], now, s.rto)])
    else s
  }

  // ---- Receiving ----

  /** Everything in the buffer that follows on without a gap from ring position `next`. */
  function Drain(next: u16, buffer: map<u16, bytes>): (r: (u16, map<u16, bytes>, seq<bytes>))
    decreases |buffer|
  {
    if next in buffer then
      var rest := buffer - {next};
      assert |rest.Keys| < |buffer.Keys| by { assert rest.Keys == buffer.Keys - {next}; }
      var (n, b, d) := Drain(WrappingAdd(next, 1), rest);
      (n, b, [buffer[next]] + d)
    else (next, buffer, [])
  }

  function BufferOutOfOrder(s: State, frame: Frame): State {
    if frame.seqNo in s.recvBuffer || |s.recvBuffer| >= MAX_RECV_BUFFER then s
    else s.(recvBuffer := s.recvBuffer[frame.seqNo := frame.payload])
  }

  /** The sequenced part of receiving a data, chunk or control frame. */
  function Sequence(s: State, frame: Frame): (r: (State, seq<Frame>)) {
    if frame.seqNo == s.recvNext then
      var (n, b, d) := Drain(WrappingAdd(s.recvNext, 1), s.recvBuffer);
      (s.(recvNext := n, recvBuffer := b, deliverQueue := s.deliverQueue + [frame.payload] + d), [])
    else if SeqGt(frame.seqNo, s.recvNext) then
      (BufferOutOfOrder(s, frame), [NackFrame(0, s.recvNext, s.recvNext)])
    else (s, [])
  }

  /** What follows the match on the frame's kind: acknowledge, then take the piggybacked ACK. */
  ghost function Acknowledge(s: State, responses: seq<Frame>, frame: Frame, now: int): Received {
    var t := s.(sendAck := s.recvNext);
    var u := if frame.ack != 0 then HandleAck(t, frame.ack, now) else t;
    Received(u.(deliverQueue := []), responses + [AckFrame(0, s.recvNext)], s.deliverQueue)
  }

  ghost function OnReceive(s: State, frame: Frame, now: int): Received {
    match frame.flags
    case Ack =>
      Received(HandleAck(s, frame.ack, now).(deliverQueue := []), [], s.deliverQueue)
    case Nack =>
      var t := if |frame.payload| >= 2
               then HandleNack(s, U16FromBe(frame.payload[0], frame.payload[1]), now) else s;
      Received(t.(deliverQueue := []), [], s.deliverQueue)
    case Fin =>
      Acknowledge(s, [], frame, now)
    case _ =>
      var (t, responses) := Sequence(s, frame);
      Acknowledge(t, responses, frame, now)
  }

  // ---- Retransmission ----

  /** `Instant::duration_since` saturates at zero. */
  predicate Due(e: Entry, rto: nat, now: int) {
    (if now >= e.sentAt then now - e.sentAt else 0) >= rto
  }

  /** Due, and with an attempt left. */
  predicate Resends(e: Entry, rto: nat, now: int) {
    Due(e, rto, now) && e.retries < MAX_RETRIES
  }

  function Polled(e: Entry, rto: nat, now: int): Entry {
    if Resends(e, rto, now) then e.(sentAt := now, retries := e.retries + 1) else e
  }

  function AfterPoll(s: State, now: int): State {
    s.(inflight := map k | k in s.inflight && Polled(s.inflight[k], s.rto, now).retries < MAX_RETRIES
                       :: Polled(s.inflight[k], s.rto, now),
       failed := s.failed || GivesUp(s, s.inflight.Keys, now))
  }

  /** Some entry among `keys` is due although its attempts are used up. */
  predicate GivesUp(s: State, keys: set<u16>, now: int)
    requires keys <= s.inflight.Keys
  {
    exists k :: k in keys && Due(s.inflight[k], s.rto, now) && s.inflight[k].retries >= MAX_RETRIES
  }

  /** The frames one poll resends, in the order in which it walks the in-flight table. */
  function Resent(s: State, now: int, order: seq<u16>): seq<Frame>
    requires forall i :: 0 <= i < |order| ==> order[i] in s.inflight
  {
    if order == [] then []
    else
      var e := s.inflight[order[0]];
      (if Resends(e, s.rto, now) then [e.frame] else []) + Resent(s, now, order[1..])
  }

  ghost predicate Lists(order: seq<u16>, keys: set<u16>) {
    && (forall i :: 0 <= i < |order| ==> order[i] in keys)
    && (forall k :: k in keys ==> k in order)
    && (forall i, j :: 0 <= i < j < |order| ==> order[i] != order[j])
  }

  /** The implementation's object. */
  class ReliabilityLayer {
    var sendSeq: u16
    var recvNext: u16
    var sendAck: u16
    var inflight: map<u16, Entry>
    var recvBuffer: map<u16, bytes>
    var deliverQueue: seq<bytes>
    var rto: nat
    var windowSize: nat
    var dupAckCount: nat
    var lastAck: u16
    var failed: bool

    function St(): State
      reads this
    {
      State(sendSeq, recvNext, sendAck, inflight, recvBuffer, deliverQueue,
            rto, windowSize, dupAckCount, lastAck, failed)
    }

    constructor (rto: nat, windowSize: nat)
      ensures St() == NewState(rto, windowSize)
    {
      sendSeq, recvNext, sendAck := 0, 0, 0;
      inflight, recvBuffer, deliverQueue := map[], map[], [];
      this.rto, this.windowSize := rto, windowSize;
      dupAckCount, lastAck, failed := 0, 0, false;
    }

    method PrepareSend(payload: bytes, now: int) returns (frame: Option<Frame>)
      modifies this
      ensures frame.Some? <==> Accepts(old(St()), payload)
      ensures frame.Some? ==> frame.value == SentFrame(old(St()), payload)
      ensures St() == if frame.Some? then AfterSend(old(St()), payload, now) else old(St())
    {
      if |inflight| >= windowSize {
        return None;
      }
      if |payload| > MAX_PAYLOAD_SIZE {
        return None;
      }
      var seqNo := sendSeq;
      sendSeq := WrappingAdd(seqNo, 1);
      var f := DataFrame(seqNo, sendAck, payload);
      inflight := inflight[seqNo := Entry(f, now, 0)];
      return Some(f);
    }

    method CountDuplicate(ack: u16, now: int)
      modifies this
      ensures St() == CountAck(old(St()), ack, now)
    {
      if ack == lastAck {
        dupAckCount := dupAckCount + 1;
        if dupAckCount >= 3 {
          if inflight.Keys != {} {
            var seqNo := MinInflight();
            inflight := inflight[seqNo := Hurry(inflight[seqNo], now, rto)];
          }
          dupAckCount := 0;
        }
      } else {
        dupAckCount := 0;
        lastAck := ack;
      }
    }

    method RemoveAcked(ack: u16)
      modifies this`inflight
      ensures inflight == Unacked(old(inflight), ack)
    {
      var toRemove := set k | k in inflight && SeqLt(k, ack);
      while toRemove != {}
        invariant toRemove <= inflight.Keys
        invariant forall k :: k in inflight <==> k in old(inflight) && (SeqLt(k, ack) ==> k in toRemove)
        invariant forall k :: k in toRemove ==> SeqLt(k, ack)
        invariant forall k :: k in inflight ==> inflight[k] == old(inflight)[k]
        decreases toRemove
      {
        var seqNo :| seqNo in toRemove;
        inflight := inflight - {seqNo};
        toRemove := toRemove - {seqNo};
      }
      assert inflight == Unacked(old(inflight), ack);
    }

    method ReceiveAck(ack: u16, now: int)
      modifies this
      ensures St() == HandleAck(old(St()), ack, now)
    {
      CountDuplicate(ack, now);
      RemoveAcked(ack);
    }

    method MinInflight() returns (seqNo: u16)
      requires inflight.Keys != {}
      ensures seqNo == MinKey(inflight.Keys)
    {
      seqNo :| seqNo in inflight.Keys;
      var todo := inflight.Keys - {seqNo};
      while todo != {}
        invariant todo <= inflight.Keys && seqNo in inflight.Keys
        invariant forall k :: k in inflight.Keys && k !in todo ==> seqNo <= k
        decreases todo
      {
        var k :| k in todo;
        seqNo := if k < seqNo then k else seqNo;
        todo := todo - {k};
      }
    }

    method ReceiveNack(missing: u16, now: int)
      modifies this
      ensures St() == HandleNack(old(St()), missing, now)
    {
      if missing in inflight {
        inflight := inflight[missing := Hurry(inflight[missing], now, rto)];
      }
    }

    method Receive(frame: Frame, now: int) returns (responses: seq<Frame>, delivered: seq<bytes>)
      modifies this
      ensures Received(St(), responses, delivered) == OnReceive(old(St()), frame, now)
    {
      responses := [];
      match frame.flags {
        case Ack =>
          ReceiveAck(frame.ack, now);
        case Nack =>
          if |frame.payload| >= 2 {
            ReceiveNack(U16FromBe(frame.payload[0], frame.payload[1]), now);
          }
        case Fin =>
        case _ =>
          responses := ReceiveSequenced(frame);
      }
      if !frame.flags.IsAckOnly() {
        sendAck := recvNext;
        responses := responses + [AckFrame(0, recvNext)];
      }
      if !frame.flags.IsAckOnly() && frame.ack != 0 {
        ReceiveAck(frame.ack, now);
      }
      delivered := deliverQueue;
      deliverQueue := [];
    }

    method DrainBuffer()
      modifies this`recvNext, this`recvBuffer, this`deliverQueue
      ensures var (n, b, d) := Drain(old(recvNext), old(recvBuffer));
        recvNext == n && recvBuffer == b && deliverQueue == old(deliverQueue) + d
    {
      while recvNext in recvBuffer
        invariant var (n, b, d) := Drain(old(recvNext), old(recvBuffer));
          var (n', b', d') := Drain(recvNext, recvBuffer);
          n == n' && b == b' && old(deliverQueue) + d == deliverQueue + d'
        decreases |recvBuffer|
      {
        var buf := recvBuffer[recvNext];
        assert (recvBuffer - {recvNext}).Keys == recvBuffer.Keys - {recvNext};
        assert |(recvBuffer - {recvNext}).Keys| < |recvBuffer.Keys|;
        recvBuffer := recvBuffer - {recvNext};
        deliverQueue := deliverQueue + [buf];
        recvNext := WrappingAdd(recvNext, 1);
      }
      assert deliverQueue + [] == deliverQueue;
    }

    method ReceiveSequenced(frame: Frame) returns (responses: seq<Frame>)
      modifies this
      ensures (St(), responses) == Sequence(old(St()), frame)
    {
      responses := [];
      if frame.seqNo == recvNext {
        deliverQueue := deliverQueue + [frame.payload];
        recvNext := WrappingAdd(recvNext, 1);
        DrainBuffer();
      } else if SeqGt(frame.seqNo, recvNext) {
        if |recvBuffer| < MAX_RECV_BUFFER || frame.seqNo in recvBuffer {
          if frame.seqNo !in recvBuffer {
            recvBuffer := recvBuffer[frame.seqNo := frame.payload];
          }
        }
        responses := [NackFrame(0, recvNext, recvNext)];
      }
    }

    /** One turn of the retransmission loop. */
    method PollEntry(seqNo: u16, now: int) returns (resent: seq<Frame>)
      requires seqNo in inflight
      modifies this`inflight, this`failed
      ensures var e := old(inflight[seqNo]);
              && inflight == old(inflight)[seqNo := Polled(e, rto, now)]
              && failed == (old(failed) || (Due(e, rto, now) && e.retries >= MAX_RETRIES))
              && resent == if Resends(e, rto, now) then [e.frame] else []
    {
      var entry := inflight[seqNo];
      resent := [];
      if Due(entry, rto, now) {
        if entry.retries >= MAX_RETRIES {
          failed := true;
        } else {
          inflight := inflight[seqNo := entry.(sentAt := now, retries := entry.retries + 1)];
          resent := [entry.frame];
        }
      }
    }

    method PollEntries(now: int) returns (retransmits: seq<Frame>, ghost order: seq<u16>)
      modifies this`inflight, this`failed
      ensures Lists(order, old(inflight).Keys)
      ensures inflight.Keys == old(inflight).Keys
      ensures forall k :: k in inflight ==> inflight[k] == Polled(old(inflight)[k], rto, now)
      ensures failed <==> old(failed) || GivesUp(old(St()), old(inflight).Keys, now)
      ensures retransmits == Resent(old(St()), now, order)
    {
      retransmits, order := [], [];
      ghost var s := St();
      ghost var done: set<u16> := {};
      var todo := inflight.Keys;
      while todo != {}
        invariant done !! todo && done + todo == s.inflight.Keys == inflight.Keys
        invariant Lists(order, done)
        invariant forall k :: k in done ==> inflight[k] == Polled(s.inflight[k], rto, now)
        invariant forall k :: k in todo ==> inflight[k] == s.inflight[k]
        invariant failed <==> s.failed || GivesUp(s, done, now)
        invariant retransmits == Resent(s, now, order)
        decreases todo
      {
        var seqNo :| seqNo in todo;
        PollTurn(s, now, order, done, seqNo);
        var resent := PollEntry(seqNo, now);
        retransmits := retransmits + resent;
        order, done, todo := order + [seqNo], done + {seqNo}, todo - {seqNo};
      }
      assert done == s.inflight.Keys;
    }

    /** `order` is the order in which the in-flight table was walked. */
    method PollRetransmits(now: int) returns (retransmits: seq<Frame>, ghost order: seq<u16>)
      modifies this
      ensures Lists(order, old(inflight).Keys)
      ensures St() == AfterPoll(old(St()), now)
      ensures retransmits == Resent(old(St()), now, order)
    {
      retransmits, order := PollEntries(now);
      inflight := map k | k in inflight && inflight[k].retries < MAX_RETRIES :: inflight[k];
      assert inflight == AfterPoll(old(St()), now).inflight;
    }
  }

  lemma PollTurn(s: State, now: int, order: seq<u16>, done: set<u16>, k: u16)
    requires Lists(order, done) && done <= s.inflight.Keys && k in s.inflight && k !in done
    ensures Lists(order + [k], done + {k})
    ensures Resent(s, now, order + [k])
         == Resent(s, now, order) + if Resends(s.inflight[k], s.rto, now) then [s.inflight[k].frame] else []
    ensures GivesUp(s, done + {k}, now)
       <==> GivesUp(s, done, now) || (Due(s.inflight[k], s.rto, now) && s.inflight[k].retries >= MAX_RETRIES)
  {
    ResentAppend(s, now, order, k);
    ListsAppend(order, done, k);
    GivesUpAdd(s, done, k, now);
  }

  lemma GivesUpAdd(s: State, keys: set<u16>, k: u16, now: int)
    requires keys <= s.inflight.Keys && k in s.inflight
    ensures GivesUp(s, keys + {k}, now)
       <==> GivesUp(s, keys, now) || (Due(s.inflight[k], s.rto, now) && s.inflight[k].retries >= MAX_RETRIES)
  {
  }

  lemma ListsAppend(order: seq<u16>, keys: set<u16>, k: u16)
    requires Lists(order, keys) && k !in keys
    ensures Lists(order + [k], keys + {k})
  {
  }

  lemma {:induction false} ResentAppend(s: State, now: int, order: seq<u16>, k: u16)
    requires forall i :: 0 <= i < |order| ==> order[i] in s.inflight
    requires k in s.inflight
    ensures Resent(s, now, order + [k])
         == Resent(s, now, order) + if Resends(s.inflight[k], s.rto, now) then [s.inflight[k].frame] else []
  {
    if order == [] {
      assert order + [k] == [k];
    } else {
      assert (order + [k])[1..] == order[1..] + [k];
      ResentAppend(s, now, order[1..], k);
    }
  }
}
