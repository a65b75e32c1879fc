/** The numbers frames carry, over any run of one end. */
module Numbering {
  import opened Bytes
  import opened SeqRing
  import opened LinkFrames
  import opened Reliability
  import opened ReceiveEffects
  import opened ReceiverRing
  import opened Retries

  ghost function DeliveredBy(s: State, ev: Event): seq<bytes> {
    if ev.Receive? then OnReceive(s, ev.frame, ev.now).delivered else []
  }

  ghost function AllDelivered(s: State, evs: seq<Event>): seq<bytes>
    decreases evs
  {
    if evs == [] then [] else DeliveredBy(s, evs[0]) + AllDelivered(After(s, evs[0]), evs[1..])
  }

  /** After `sent` payloads taken and `got` delivered. */
  ghost predicate Numbered(s: State, sent: nat, got: nat) {
    RingOk(s, got) && s.sendAck == s.recvNext && s.sendSeq == Wrap(sent)
  }

  lemma AcknowledgeNumbers(s: State, responses: seq<Frame>, frame: Frame, now: int)
    ensures var t := Acknowledge(s, responses, frame, now).state;
      t.sendAck == t.recvNext == s.recvNext && t.sendSeq == s.sendSeq
  {
    AckLeavesNumbers(s.(sendAck := s.recvNext), frame.ack, now);
  }

  lemma ReceiveLeavesNumbers(s: State, frame: Frame, now: int)
    requires s.sendAck == s.recvNext
    ensures var t := OnReceive(s, frame, now).state; t.sendAck == t.recvNext && t.sendSeq == s.sendSeq
  {
    SequenceLeavesTable(s, frame);
    match frame.flags
    case Ack => AckLeavesNumbers(s, frame.ack, now);
    case Nack =>
    case Fin => AcknowledgeNumbers(s, [], frame, now);
    case _ =>
      var (t, responses) := Sequence(s, frame);
      AcknowledgeNumbers(t, responses, frame, now);
  }

  lemma AckLeavesNumbers(s: State, ack: u16, now: int)
    ensures var t := HandleAck(s, ack, now);
      t.sendAck == s.sendAck && t.recvNext == s.recvNext && t.sendSeq == s.sendSeq
  {
  }

  lemma EventKeepsRing(s: State, ev: Event, got: nat)
    requires RingOk(s, got)
    ensures RingOk(After(s, ev), got + |DeliveredBy(s, ev)|)
  {
    if ev.Receive? { ReceiveKeepsRing(s, got, ev.frame, ev.now); }
  }

  lemma EventKeepsCounters(s: State, ev: Event)
    requires s.sendAck == s.recvNext
    ensures var t := After(s, ev);
      t.sendAck == t.recvNext && t.sendSeq == if Takes(s, ev) then WrappingAdd(s.sendSeq, 1) else s.sendSeq
  {
    if ev.Receive? { ReceiveLeavesNumbers(s, ev.frame, ev.now); }
  }

  /** One event of a run: the ring is kept, and the rest of the run goes on from there. */
  lemma {:induction false} FirstOfRun(s: State, evs: seq<Event>, got: nat)
    returns (next: State, first: nat, rest: seq<Event>)
    requires RingOk(s, got) && evs != []
    ensures RingOk(next, got + first) && rest == evs[1..]
    ensures AfterAll(s, evs) == AfterAll(next, rest) && |AllDelivered(s, evs)| == first + |AllDelivered(next, rest)|
  {
    next, first, rest := After(s, evs[0]), |DeliveredBy(s, evs[0])|, evs[1..];
    EventKeepsRing(s, evs[0], got);
  }

  lemma {:induction false} RunKeepsRing(s: State, evs: seq<Event>, got: nat, end: State, got': nat)
    requires RingOk(s, got) && end == AfterAll(s, evs) && got' == got + |AllDelivered(s, evs)|
    ensures RingOk(end, got')
    decreases |evs|
  {
    if evs != [] {
      var next, first, rest := FirstOfRun(s, evs, got);
      RunKeepsRing(next, rest, got + first, end, got');
    }
  }

  lemma {:induction false} RunKeepsCounters(s: State, evs: seq<Event>, sent: nat, sent': nat)
    requires s.sendAck == s.recvNext && s.sendSeq == Wrap(sent) && sent' == sent + Taken(s, evs)
    ensures var t := AfterAll(s, evs); t.sendAck == t.recvNext && t.sendSeq == Wrap(sent')
    decreases evs
  {
    if evs != [] {
      EventKeepsCounters(s, evs[0]);
      WrapSucc(sent);
      RunKeepsCounters(After(s, evs[0]), evs[1..], if Takes(s, evs[0]) then sent + 1 else sent, sent');
    }
  }

  /** After any run the next frame carries the number of payloads taken and, as its ACK, the number of
      those delivered, both mod 2^16. */
  lemma NextFrameNumbers(rto: nat, window: nat, evs: seq<Event>, payload: bytes)
    ensures var s := NewState(rto, window);
      SentFrame(AfterAll(s, evs), payload)
         == Frame(Data, Taken(s, evs) % 0x1_0000, |AllDelivered(s, evs)| % 0x1_0000, payload)
  {
    var s := NewState(rto, window);
    RunKeepsRing(s, evs, 0, AfterAll(s, evs), |AllDelivered(s, evs)|);
    RunKeepsCounters(s, evs, 0, Taken(s, evs));
  }

  /** Every data, chunk, control or final frame is answered by an ACK with the number delivered by then;
      one that is ahead of the awaited frame first by a NACK that names the awaited one. ACKs and NACKs
      are not answered. */
  lemma AnswersNameCounts(s: State, sent: nat, got: nat, frame: Frame, now: int)
    requires Numbered(s, sent, got)
    ensures var r := OnReceive(s, frame, now);
      r.responses == if frame.flags.Ack? || frame.flags.Nack? then []
                     else (if !frame.flags.Fin? && 0 < (frame.seqNo - got) % 0x1_0000 < 0x8000
                           then [NackFrame(0, got % 0x1_0000, got % 0x1_0000)] else [])
                          + [AckFrame(0, (got + |r.delivered|) % 0x1_0000)]
  {
    ReceiveKeepsRing(s, got, frame, now);
    AnswersName(s, frame, now);
    RingDistance(frame.seqNo, got);
    CountsAreRingPositions(s, got, OnReceive(s, frame, now));
  }

  lemma CountsAreRingPositions(s: State, got: nat, r: Received)
    requires RingOk(s, got) && RingOk(r.state, got + |r.delivered|)
    ensures s.recvNext == got % 0x1_0000 && r.state.recvNext == (got + |r.delivered|) % 0x1_0000
  {
  }

  lemma RingDistance(a: u16, n: nat)
    ensures WrappingSub(a, n % 0x1_0000) == (a - n) % 0x1_0000
  {
  }

  lemma AnswersName(s: State, frame: Frame, now: int)
    ensures var r := OnReceive(s, frame, now);
      r.responses == if frame.flags.IsAckOnly() then []
                     else (if !frame.flags.Fin? && 0 < WrappingSub(frame.seqNo, s.recvNext) < 0x8000
                           then [NackFrame(0, s.recvNext, s.recvNext)] else [])
                          + [AckFrame(0, r.state.recvNext)]
  {
    BufferEffect(s, frame, now);
  }
}
