/** Which part of the state each kind of frame touches. */
module ReceiveEffects {
  import opened Bytes
  import opened LinkFrames
  import opened Reliability

  /** The acknowledgement a frame is taken for, if any. */
  function TakenAck(frame: Frame): Option<u16> {
    if frame.flags.Ack? || (!frame.flags.IsAckOnly() && frame.ack != 0) then Some(frame.ack) else None
  }

  ghost function TableAfter(s: State, frame: Frame, now: int): map<u16, Entry> {
    if TakenAck(frame).Some? then Unacked(CountAck(s, frame.ack, now).inflight, frame.ack)
    else if frame.flags.Nack? && |frame.payload| >= 2
    then HandleNack(s, U16FromBe(frame.payload[0], frame.payload[1]), now).inflight
    else s.inflight
  }

  lemma CountAckLocal(s: State, t: State, ack: u16, now: int)
    requires s.inflight == t.inflight && s.rto == t.rto
    requires s.dupAckCount == t.dupAckCount && s.lastAck == t.lastAck
    ensures CountAck(s, ack, now).inflight == CountAck(t, ack, now).inflight
    ensures CountAck(s, ack, now).rto == s.rto && CountAck(s, ack, now).failed == s.failed
    ensures CountAck(s, ack, now).inflight.Keys == s.inflight.Keys
  {
  }

  lemma SequenceLeavesTable(s: State, frame: Frame)
    ensures var t := Sequence(s, frame).0;
      t == s.(recvNext := t.recvNext, recvBuffer := t.recvBuffer, deliverQueue := t.deliverQueue)
  {
  }

  lemma TableEffect(s: State, frame: Frame, now: int)
    ensures var t := OnReceive(s, frame, now).state;
      t.inflight == TableAfter(s, frame, now) && t.rto == s.rto && t.failed == s.failed
  {
    SequenceLeavesTable(s, frame);
    var t := if frame.flags.IsAckOnly() || frame.flags.Fin? then s else Sequence(s, frame).0;
    CountAckLocal(s, t.(sendAck := t.recvNext), frame.ack, now);
    CountAckLocal(s, s, frame.ack, now);
  }

  lemma AckLeavesBuffer(s: State, ack: u16, now: int)
    ensures var t := HandleAck(s, ack, now);
      t.recvNext == s.recvNext && t.recvBuffer == s.recvBuffer && t.deliverQueue == s.deliverQueue
  {
  }

  /** The sequenced kinds of frame go through `Sequence`; the others deliver only what waited. */
  lemma BufferEffect(s: State, frame: Frame, now: int)
    ensures var r := OnReceive(s, frame, now);
      var t := if frame.flags.IsAckOnly() || frame.flags.Fin? then s else Sequence(s, frame).0;
      && r.state.recvNext == t.recvNext && r.state.recvBuffer == t.recvBuffer && r.state.deliverQueue == []
      && r.delivered == t.deliverQueue
  {
    var t := if frame.flags.IsAckOnly() || frame.flags.Fin? then s else Sequence(s, frame).0;
    AckLeavesBuffer(t.(sendAck := t.recvNext), frame.ack, now);
    AckLeavesBuffer(s, frame.ack, now);
  }

  lemma ReceiveKeepsWindow(s: State, frame: Frame, now: int)
    ensures OnReceive(s, frame, now).state.windowSize == s.windowSize
  {
    var t := Sequence(s, frame).0;
    AckKeepsWindow(s, frame.ack, now);
    AckKeepsWindow(s.(sendAck := s.recvNext), frame.ack, now);
    AckKeepsWindow(t.(sendAck := t.recvNext), frame.ack, now);
    SequenceKeepsWindow(s, frame);
  }

  lemma AckKeepsWindow(s: State, ack: u16, now: int)
    ensures HandleAck(s, ack, now).windowSize == s.windowSize
  {
  }

  lemma SequenceKeepsWindow(s: State, frame: Frame)
    ensures Sequence(s, frame).0.windowSize == s.windowSize
  {
  }

  /** Counting an ACK keeps every frame and costs each at most one attempt. */
  lemma CountAckEntry(s: State, ack: u16, now: int, k: u16)
    requires k in s.inflight
    ensures var t := CountAck(s, ack, now);
      && k in t.inflight && t.inflight[k].frame == s.inflight[k].frame
      && s.inflight[k].retries <= t.inflight[k].retries
      && (t.inflight[k].retries > s.inflight[k].retries ==> ack == s.lastAck && s.dupAckCount >= 2)
  {
  }

  lemma ReceiveEntry(s: State, frame: Frame, now: int, k: u16)
    requires k in OnReceive(s, frame, now).state.inflight
    ensures k in s.inflight
    ensures var e := OnReceive(s, frame, now).state.inflight[k];
      && e.frame == s.inflight[k].frame
      && s.inflight[k].retries <= e.retries
      && (e.retries > s.inflight[k].retries ==>
            frame.flags.Nack? || (TakenAck(frame) == Some(s.lastAck) && s.dupAckCount >= 2))
  {
    TableEffect(s, frame, now);
    if TakenAck(frame).Some? {
      CountAckLocal(s, s, frame.ack, now);
      CountAckEntry(s, frame.ack, now, k);
    }
  }
}
