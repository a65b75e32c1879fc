/**
 Two reliability layers joined by a pair of FIFO channels that may lose any frame. A packet is a
 frame together with the unbounded counters behind its u16 fields; the layers only ever look at
 the frame. Everything is symmetric, so a step is described for the left end and `Flip`ped for
 the right one.
 */
module ArqProtocol {
  import opened Bytes
  import opened SeqRing
  import opened LinkFrames
  import opened Reliability

  /** `n` stands behind `frame.seqNo` of a data frame, `k` behind `frame.ack`. */
  datatype Packet = Packet(frame: Frame, n: nat, k: nat)

  /**
   `sent` and `got` are the payloads accepted and delivered so far, `acks[n]` the count behind the
   ACK that data frame `n` carries, `una` the largest acknowledgement taken so far, and `lost`
   whether a poll has dropped a frame from the in-flight table.
   */
  datatype Endpoint = Endpoint(
    st: State, sent: seq<bytes>, got: seq<bytes>, acks: seq<nat>, una: nat, lost: bool)

  datatype Net = Net(left: Endpoint, right: Endpoint, out: seq<Packet>, back: seq<Packet>)

  datatype Event =
    | Send(payload: bytes, now: int)
    | Lose(i: nat)
    | Arrive(now: int)
    | Poll(now: int, order: seq<u16>)

  datatype Act = OnLeft(ev: Event) | OnRight(ev: Event)

  function Flip(net: Net): Net {
    Net(net.right, net.left, net.back, net.out)
  }

  function NewEndpoint(rto: nat, window: nat): Endpoint {
    Endpoint(NewState(rto, window), [], [], [], 0, false)
  }

  // ---- Steps ----

  function Sent(e: Endpoint, payload: bytes, now: int): Endpoint {
    e.(st := AfterSend(e.st, payload, now), sent := e.sent + [payload], acks := e.acks + [|e.got|])
  }

  function WithSt(e: Endpoint, st: State, una: nat): Endpoint {
    e.(st := st, una := una)
  }

  function Later(m: nat, n: nat): nat {
    if n > m then n else m
  }

  function AfterAck(e: Endpoint, p: Packet): nat {
    if p.frame.flags.Ack? || (!p.frame.flags.IsAckOnly() && p.frame.ack != 0)
    then Later(e.una, p.k) else e.una
  }

  function AfterPolling(e: Endpoint, now: int): Endpoint {
    var st := AfterPoll(e.st, now);
    e.(st := st, lost := e.lost || st.inflight.Keys != e.st.inflight.Keys)
  }

  function Responses(frames: seq<Frame>, k: nat): (ps: seq<Packet>)
    ensures |ps| == |frames|
    ensures forall i :: 0 <= i < |ps| ==> ps[i] == Packet(frames[i], 0, k)
  {
    seq(|frames|, i requires 0 <= i < |frames| => Packet(frames[i], 0, k))
  }

  function Retransmits(e: Endpoint, frames: seq<Frame>): (ps: seq<Packet>)
    ensures |ps| == |frames|
    ensures forall i :: 0 <= i < |ps| ==> ps[i] == Retransmit(e, frames[i])
  {
    seq(|frames|, i requires 0 <= i < |frames| => Retransmit(e, frames[i]))
  }

  function Retransmit(e: Endpoint, frame: Frame): Packet {
    var n := Ahead(e.una, frame.seqNo);
    Packet(frame, n, if n < |e.acks| then e.acks[n] else 0)
  }

  /** One step of the left end; `Lose` takes a packet away from the channel towards it. */
  ghost function StepLeft(net: Net, ev: Event): Net {
    var e := net.left;
    match ev
    case Send(payload, now) =>
      if !Accepts(e.st, payload) then net else
        net.(left := Sent(e, payload, now),
             out := net.out + [Packet(SentFrame(e.st, payload), |e.sent|, |e.got|)])
    case Lose(i) =>
      if i < |net.back| then net.(back := net.back[..i] + net.back[i + 1..]) else net
    case Arrive(now) =>
      if net.back == [] then net else
        var p := net.back[0];
        var r := OnReceive(e.st, p.frame, now);
        var got := e.got + r.delivered;
        net.(left := e.(st := r.state, got := got, una := AfterAck(e, p)),
             back := net.back[1..],
             out := net.out + Responses(r.responses, |got|))
    case Poll(now, order) =>
      if !Lists(order, e.st.inflight.Keys) then net else
        net.(left := AfterPolling(e, now),
             out := net.out + Retransmits(e, Resent(e.st, now, order)))
  }

  ghost function Step(net: Net, act: Act): Net {
    match act
    case OnLeft(ev) => StepLeft(net, ev)
    case OnRight(ev) => Flip(StepLeft(Flip(net), ev))
  }

  /** A data frame that carries an ACK arrives before the receiver of that ACK has sent more than
      2^15 + 1 frames past it. Frames without data always qualify. */
  predicate FreshLeft(net: Net, ev: Event) {
    ev.Arrive? && net.back != [] && !net.back[0].frame.flags.IsAckOnly() && net.back[0].frame.ack != 0
    ==> |net.left.sent| <= net.back[0].k + 0x8001
  }

  predicate Fresh(net: Net, act: Act) {
    match act
    case OnLeft(ev) => FreshLeft(net, ev)
    case OnRight(ev) => FreshLeft(Flip(net), ev)
  }

  ghost function Exec(net: Net, acts: seq<Act>): Net
    decreases acts
  {
    if acts == [] then net else Exec(Step(net, acts[0]), acts[1..])
  }

  ghost predicate FreshRun(net: Net, acts: seq<Act>)
    decreases acts
  {
    acts == [] || (Fresh(net, acts[0]) && FreshRun(Step(net, acts[0]), acts[1..]))
  }

  // ---- Invariant ----

  /** The in-flight table is exactly the contiguous range from `una` to the send counter. */
  ghost predicate SenderOk(e: Endpoint) {
    && |e.acks| == |e.sent|
    && e.st.windowSize < 0x8000
    && e.una <= |e.sent| <= e.una + e.st.windowSize
    && e.st.sendSeq == Wrap(|e.sent|)
    && (forall k :: k in e.st.inflight ==> InflightOk(e, k))
    && (forall n :: e.una <= n < |e.sent| ==> Wrap(n) in e.st.inflight)
    && (forall n :: 0 <= n < |e.acks| ==> e.acks[n] <= |e.got|)
    && (forall n :: 0 <= n < |e.sent| ==> |e.sent[n]| <= MAX_PAYLOAD_SIZE)
  }

  ghost predicate InflightOk(e: Endpoint, k: u16)
    requires k in e.st.inflight && |e.acks| == |e.sent|
  {
    var n := Ahead(e.una, k);
    n < |e.sent| && e.st.inflight[k].frame == DataFrame(k, Wrap(e.acks[n]), e.sent[n])
  }

  /** What `r` delivered is a prefix of `sent`, and what it buffers comes later in it. */
  ghost predicate ReceiverOk(sent: seq<bytes>, r: Endpoint) {
    && |r.got| <= |sent|
    && r.got == sent[..|r.got|]
    && r.st.recvNext == Wrap(|r.got|) == r.st.sendAck
    && r.st.deliverQueue == []
    && BufferOk(sent, |r.got|, r.st.recvBuffer)
    && forall k :: k in r.st.recvBuffer ==> Ahead(|r.got|, k) > |r.got|
  }

  ghost predicate BufferOk(sent: seq<bytes>, m: nat, buffer: map<u16, bytes>) {
    forall k :: k in buffer ==> Ahead(m, k) < |sent| && buffer[k] == sent[Ahead(m, k)]
  }

  /** The data frames on the way to a receiver that delivered `m` frames: genuine, and none so old
      that the receiver, or a frame ahead of it in the channel, is a window past it. */
  ghost predicate DataOk(sent: seq<bytes>, window: nat, m: nat, buffer: map<u16, bytes>, channel: seq<Packet>) {
    && (forall p :: p in channel ==> p.frame.flags.IsAckOnly() || p.frame.flags.Data?)
    && (forall p :: p in channel && p.frame.flags.Data? ==> PacketOk(sent, window, m, buffer, p))
    && (forall i, j :: 0 <= j < i < |channel| && channel[i].frame.flags.Data? && channel[j].frame.flags.Data?
          ==> channel[j].n < channel[i].n + window)
  }

  ghost predicate PacketOk(sent: seq<bytes>, window: nat, m: nat, buffer: map<u16, bytes>, p: Packet) {
    && p.n < |sent|
    && p.frame.seqNo == Wrap(p.n) && p.frame.payload == sent[p.n]
    && m <= p.n + window
    && forall k :: k in buffer ==> Ahead(m, k) < p.n + window
  }

  /** The acknowledgements on the way back from a receiver that delivered `m` frames: none beyond
      that, and the pure ACKs at or past everything acknowledged before them. */
  ghost predicate AcksOk(una: nat, m: nat, channel: seq<Packet>) {
    && (forall p :: p in channel ==> p.frame.ack == Wrap(p.k) && p.k <= m)
    && (forall p :: p in channel && p.frame.flags.Ack? ==> una <= p.k)
    && (forall i, j :: 0 <= j < i < |channel| && channel[i].frame.flags.Ack? ==> channel[j].k <= channel[i].k)
  }

  ghost predicate Flow(s: Endpoint, r: Endpoint, data: seq<Packet>, acks: seq<Packet>) {
    && SenderOk(s)
    && ReceiverOk(s.sent, r)
    && s.una <= |r.got|
    && DataOk(s.sent, s.st.windowSize, |r.got|, r.st.recvBuffer, data)
    && AcksOk(s.una, |r.got|, acks)
  }

  ghost predicate Inv(net: Net) {
    && Flow(net.left, net.right, net.out, net.back)
    && Flow(net.right, net.left, net.back, net.out)
  }

  // ---- Ring ranges ----

  function RingRange(lo: nat, hi: nat): set<u16>
    requires lo <= hi
  {
    set n | lo <= n < hi :: Wrap(n)
  }

  lemma {:induction false} RingRangeSize(lo: nat, hi: nat)
    requires lo <= hi <= lo + 0x1_0000
    ensures |RingRange(lo, hi)| == hi - lo
  {
    if lo < hi {
      RingRangeSize(lo, hi - 1);
      assert RingRange(lo, hi) == RingRange(lo, hi - 1) + {Wrap(hi - 1)};
      forall n | lo <= n < hi - 1 ensures Wrap(n) != Wrap(hi - 1) {
        if Wrap(n) == Wrap(hi - 1) { WrapInjective(n, hi - 1); }
      }
    } else {
      assert RingRange(lo, hi) == {};
    }
  }

  /** The window test of the implementation counts exactly the unacknowledged frames. */
  lemma InflightIsRange(e: Endpoint)
    requires SenderOk(e)
    ensures e.st.inflight.Keys == RingRange(e.una, |e.sent|)
    ensures |e.st.inflight| == |e.sent| - e.una
  {
    forall k | k in e.st.inflight ensures k in RingRange(e.una, |e.sent|) {
      assert InflightOk(e, k);
      WrapAhead(e.una, k);
    }
    assert e.st.inflight.Keys == RingRange(e.una, |e.sent|);
    RingRangeSize(e.una, |e.sent|);
  }

  // ---- Acknowledgements ----

  lemma CountAckKeepsFrames(s: State, ack: u16, now: int)
    ensures var t := CountAck(s, ack, now);
            && t.inflight.Keys == s.inflight.Keys
            && (forall k :: k in s.inflight ==> t.inflight[k].frame == s.inflight[k].frame)
            && t == s.(inflight := t.inflight, dupAckCount := t.dupAckCount, lastAck := t.lastAck)
  {
  }

  /** An acknowledgement of `k` frames removes exactly those among the unacknowledged ones. */
  lemma AckRemoves(e: Endpoint, k: nat, now: int)
    requires SenderOk(e)
    requires k <= |e.sent| && |e.sent| <= k + 0x8001
    ensures var u := HandleAck(e.st, Wrap(k), now);
            && u == e.st.(inflight := u.inflight, dupAckCount := u.dupAckCount, lastAck := u.lastAck)
            && SenderOk(WithSt(e, u, Later(e.una, k)))
  {
    var u := HandleAck(e.st, Wrap(k), now);
    var f := WithSt(e, u, Later(e.una, k));
    CountAckKeepsFrames(e.st, Wrap(k), now);
    forall n | e.una <= n < |e.sent| ensures Wrap(n) in u.inflight <==> k <= n {
      RingOrder(n, k);
    }
    forall key | key in u.inflight ensures InflightOk(f, key) {
      assert InflightOk(e, key);
      WrapAhead(e.una, key);
      var n := Ahead(e.una, key);
      assert Wrap(n) in u.inflight;
      AheadWrap(f.una, n);
    }
  }

  // ---- Sending ----

  lemma SentEntryOk(e: Endpoint, payload: bytes, now: int, k: u16)
    requires SenderOk(e) && |e.sent| < e.una + 0x1_0000
    requires e.st.sendAck == Wrap(|e.got|)
    requires k in e.st.inflight || k == e.st.sendSeq
    ensures InflightOk(Sent(e, payload, now), k)
  {
    if k == e.st.sendSeq {
      AheadWrap(e.una, |e.sent|);
    } else {
      assert InflightOk(e, k);
    }
  }

  lemma SendKeepsSender(e: Endpoint, payload: bytes, now: int)
    requires SenderOk(e) && Accepts(e.st, payload)
    requires e.st.sendAck == Wrap(|e.got|)
    ensures SenderOk(Sent(e, payload, now))
  {
    SentInWindow(e, payload);
    WrapSucc(|e.sent|);
    SentEntriesOk(e, payload, now);
    SentCovers(e, payload, now);
  }

  lemma SentInWindow(e: Endpoint, payload: bytes)
    requires SenderOk(e) && Accepts(e.st, payload)
    ensures |e.sent| < e.una + e.st.windowSize
  {
    InflightIsRange(e);
  }

  lemma SentEntriesOk(e: Endpoint, payload: bytes, now: int)
    requires SenderOk(e) && |e.sent| < e.una + 0x1_0000
    requires e.st.sendAck == Wrap(|e.got|)
    ensures forall k :: k in Sent(e, payload, now).st.inflight ==> InflightOk(Sent(e, payload, now), k)
  {
    forall k | k in Sent(e, payload, now).st.inflight ensures InflightOk(Sent(e, payload, now), k) {
      SentEntryOk(e, payload, now, k);
    }
  }

  lemma SentCovers(e: Endpoint, payload: bytes, now: int)
    requires SenderOk(e)
    ensures forall n :: e.una <= n <= |e.sent| ==> Wrap(n) in Sent(e, payload, now).st.inflight
  {
  }

  lemma NewPacketOk(e: Endpoint, r: Endpoint, payload: bytes)
    requires SenderOk(e) && ReceiverOk(e.sent, r)
    ensures PacketOk(e.sent + [payload], e.st.windowSize, |r.got|, r.st.recvBuffer,
                     Packet(SentFrame(e.st, payload), |e.sent|, |e.got|))
    ensures ReceiverOk(e.sent + [payload], r)
  {
    var sent := e.sent + [payload];
    assert r.got == sent[..|r.got|];
    forall k | k in r.st.recvBuffer ensures Ahead(|r.got|, k) < |e.sent| {
    }
  }

  lemma SendKeepsOwnFlow(e: Endpoint, r: Endpoint, out: seq<Packet>, back: seq<Packet>, payload: bytes, now: int)
    requires Flow(e, r, out, back) && Accepts(e.st, payload) && e.st.sendAck == Wrap(|e.got|)
    ensures Flow(Sent(e, payload, now), r, out + [Packet(SentFrame(e.st, payload), |e.sent|, |e.got|)], back)
  {
    SendKeepsSender(e, payload, now);
    NewPacketOk(e, r, payload);
    DataGrows(e.sent, payload, e.st.windowSize, |r.got|, r.st.recvBuffer, out);
    DataAppend(e.sent + [payload], e.st.windowSize, |r.got|, r.st.recvBuffer, out,
               [Packet(SentFrame(e.st, payload), |e.sent|, |e.got|)]);
  }

  lemma SendKeepsOtherFlow(e: Endpoint, r: Endpoint, out: seq<Packet>, back: seq<Packet>, payload: bytes, now: int)
    requires Flow(r, e, back, out)
    ensures Flow(r, Sent(e, payload, now), back, out + [Packet(SentFrame(e.st, payload), |e.sent|, |e.got|)])
  {
    AcksAppend(r.una, |e.got|, out, [Packet(SentFrame(e.st, payload), |e.sent|, |e.got|)]);
  }

  lemma SendKeepsInv(net: Net, payload: bytes, now: int)
    requires Inv(net)
    ensures Inv(StepLeft(net, Send(payload, now)))
  {
    if Accepts(net.left.st, payload) {
      SendKeepsOwnFlow(net.left, net.right, net.out, net.back, payload, now);
      SendKeepsOtherFlow(net.left, net.right, net.out, net.back, payload, now);
    }
  }

  // ---- Channels ----

  lemma DataAppend(sent: seq<bytes>, window: nat, m: nat, buffer: map<u16, bytes>, channel: seq<Packet>,
          more: seq<Packet>)
    requires DataOk(sent, window, m, buffer, channel)
    requires forall p :: p in more && !p.frame.flags.IsAckOnly() ==>
               p.frame.flags.Data? && PacketOk(sent, window, m, buffer, p) && |sent| <= p.n + window
    ensures DataOk(sent, window, m, buffer, channel + more)
  {
    var c := channel + more;
    forall i, j | 0 <= j < i < |c| && c[i].frame.flags.Data? && c[j].frame.flags.Data?
      ensures c[j].n < c[i].n + window
    {
      if i >= |channel| {
        assert c[i] in more;
        assert c[j] in channel || c[j] in more;
      }
    }
  }

  lemma DataGrows(sent: seq<bytes>, payload: bytes, window: nat, m: nat, buffer: map<u16, bytes>, channel: seq<Packet>)
    requires DataOk(sent, window, m, buffer, channel)
    ensures DataOk(sent + [payload], window, m, buffer, channel)
  {
  }

  lemma DataRemove(sent: seq<bytes>, window: nat, m: nat, buffer: map<u16, bytes>, channel: seq<Packet>, i: nat)
    requires DataOk(sent, window, m, buffer, channel) && i < |channel|
    ensures DataOk(sent, window, m, buffer, channel[..i] + channel[i + 1..])
  {
    var c := channel[..i] + channel[i + 1..];
    assert forall j :: 0 <= j < |c| ==> c[j] == channel[if j < i then j else j + 1];
  }

  lemma AcksAppend(una: nat, m: nat, channel: seq<Packet>, more: seq<Packet>)
    requires AcksOk(una, m, channel) && una <= m
    requires forall p :: p in more ==> p.frame.ack == Wrap(p.k) && p.k <= m && (p.frame.flags.Ack? ==> p.k == m)
    ensures AcksOk(una, m, channel + more)
  {
    var c := channel + more;
    forall i, j | 0 <= j < i < |c| && c[i].frame.flags.Ack? ensures c[j].k <= c[i].k {
      if i >= |channel| {
        assert c[i] in more;
        assert c[j] in channel || c[j] in more;
      }
    }
  }

  lemma AcksRemove(una: nat, m: nat, channel: seq<Packet>, i: nat)
    requires AcksOk(una, m, channel) && i < |channel|
    ensures AcksOk(una, m, channel[..i] + channel[i + 1..])
  {
    var c := channel[..i] + channel[i + 1..];
    assert forall j :: 0 <= j < |c| ==> c[j] == channel[if j < i then j else j + 1];
  }

  lemma LoseKeepsInv(net: Net, i: nat)
    requires Inv(net)
    ensures Inv(StepLeft(net, Lose(i)))
  {
    var l, r := net.left, net.right;
    if i < |net.back| {
      DataRemove(r.sent, r.st.windowSize, |l.got|, l.st.recvBuffer, net.back, i);
      AcksRemove(l.una, |r.got|, net.back, i);
    }
  }

  // ---- Receiving data ----

  /** Draining from count `m` took `out`, the next stretch of the sender's stream, and left `rest`
      for later. */
  ghost predicate Drained(sent: seq<bytes>, m: nat, buffer: map<u16, bytes>,
                          next: u16, rest: map<u16, bytes>, out: seq<bytes>) {
    && m + |out| <= |sent|
    && next == Wrap(m + |out|)
    && out == sent[m..m + |out|]
    && BufferOk(sent, m + |out|, rest)
    && (forall k :: k in rest ==> k in buffer && m + |out| < Ahead(m + |out|, k) == Ahead(m, k))
    && (|out| > 0 ==> exists k :: k in buffer && Ahead(m, k) == m + |out| - 1)
  }

  lemma DrainedStep(sent: seq<bytes>, m: nat, buffer: map<u16, bytes>, next: u16, rest: map<u16, bytes>,
          out: seq<bytes>)
    requires BufferOk(sent, m, buffer) && Wrap(m) in buffer
    requires forall j :: j in buffer && j != Wrap(m) ==> Ahead(m + 1, j) == Ahead(m, j)
    requires Drained(sent, m + 1, buffer - {Wrap(m)}, next, rest, out)
    ensures Drained(sent, m, buffer, next, rest, [buffer[Wrap(m)]] + out)
  {
    AheadWrap(m, m);
    assert sent[m..m + 1 + |out|] == [sent[m]] + sent[m + 1..m + 1 + |out|];
  }

  lemma {:induction false} DrainOk(sent: seq<bytes>, m: nat, buffer: map<u16, bytes>)
    requires m <= |sent| && BufferOk(sent, m, buffer)
    ensures var (next, rest, out) := Drain(Wrap(m), buffer); Drained(sent, m, buffer, next, rest, out)
    decreases |buffer|
  {
    var k := Wrap(m);
    forall j | j in buffer && j != k ensures Ahead(m, j) > m && Ahead(m + 1, j) == Ahead(m, j) {
      WrapAhead(m, j);
      AheadStep(m, j);
    }
    if k in buffer {
      AheadWrap(m, m);
      var shorter := buffer - {k};
      assert shorter.Keys == buffer.Keys - {k};
      assert |shorter.Keys| < |buffer.Keys|;
      WrapSucc(m);
      DrainOk(sent, m + 1, shorter);
      var (next, rest, out) := Drain(Wrap(m + 1), shorter);
      DrainedStep(sent, m, buffer, next, rest, out);
      assert Drain(k, buffer) == (next, rest, [buffer[k]] + out);
    }
  }

  /** `r` after the sequenced part of receiving, its delivery queue handed over. */
  function Sequenced(r: Endpoint, frame: Frame): Endpoint {
    var (t, _) := Sequence(r.st, frame);
    r.(st := t.(sendAck := t.recvNext, deliverQueue := []), got := r.got + t.deliverQueue)
  }

  function Extended(r: Endpoint, next: u16, rest: map<u16, bytes>, out: seq<bytes>): Endpoint {
    r.(st := r.st.(recvNext := next, sendAck := next, recvBuffer := rest), got := r.got + out)
  }

  lemma SequencedInOrder(r: Endpoint, frame: Frame)
    requires frame.seqNo == r.st.recvNext && r.st.deliverQueue == []
    ensures var (next, rest, out) := Drain(WrappingAdd(r.st.recvNext, 1), r.st.recvBuffer);
      Sequenced(r, frame) == Extended(r, next, rest, [frame.payload] + out)
  {
    var (next, rest, out) := Drain(WrappingAdd(r.st.recvNext, 1), r.st.recvBuffer);
    assert r.st.deliverQueue + [frame.payload] + out == [frame.payload] + out;
  }

  lemma ExtendedOk(sent: seq<bytes>, r: Endpoint, next: u16, rest: map<u16, bytes>, out: seq<bytes>)
    requires ReceiverOk(sent, r) && |r.got| < |sent|
    requires Drained(sent, |r.got| + 1, r.st.recvBuffer, next, rest, out)
    ensures ReceiverOk(sent, Extended(r, next, rest, [sent[|r.got|]] + out))
  {
    var m := |r.got|;
    var t := Extended(r, next, rest, [sent[m]] + out);
    assert |t.got| == m + 1 + |out|;
    assert sent[..m + 1 + |out|] == sent[..m] + ([sent[m]] + sent[m + 1..m + 1 + |out|]);
  }

  lemma InOrderDrain(sent: seq<bytes>, r: Endpoint, frame: Frame)
    requires ReceiverOk(sent, r) && |r.got| < |sent|
    requires frame.seqNo == Wrap(|r.got|) && frame.payload == sent[|r.got|]
    ensures var t := Sequenced(r, frame);
            && ReceiverOk(sent, t) && |r.got| < |t.got|
            && (forall k :: k in t.st.recvBuffer ==> k in r.st.recvBuffer && Ahead(|t.got|, k) == Ahead(|r.got|, k))
            && (|t.got| == |r.got| + 1 || exists k :: k in r.st.recvBuffer && Ahead(|r.got|, k) == |t.got| - 1)
  {
    var m, buffer := |r.got|, r.st.recvBuffer;
    forall k | k in buffer ensures Ahead(m + 1, k) == Ahead(m, k) {
      AheadStep(m, k);
    }
    WrapSucc(m);
    DrainOk(sent, m + 1, buffer);
    var (next, rest, out) := Drain(Wrap(m + 1), buffer);
    SequencedInOrder(r, frame);
    ExtendedOk(sent, r, next, rest, out);
  }

  lemma InOrderOk(sent: seq<bytes>, window: nat, r: Endpoint, data: seq<Packet>)
    requires ReceiverOk(sent, r) && DataOk(sent, window, |r.got|, r.st.recvBuffer, data)
    requires data != [] && data[0].frame.flags.Data? && data[0].n == |r.got|
    ensures var t := Sequenced(r, data[0].frame);
            ReceiverOk(sent, t) && DataOk(sent, window, |t.got|, t.st.recvBuffer, data[1..])
  {
    var m, p, buffer := |r.got|, data[0], r.st.recvBuffer;
    assert PacketOk(sent, window, m, buffer, p);
    InOrderDrain(sent, r, p.frame);
    var t := Sequenced(r, p.frame);
    forall q | q in data[1..] && q.frame.flags.Data?
      ensures PacketOk(sent, window, |t.got|, t.st.recvBuffer, q)
    {
      var i :| 1 <= i < |data| && data[i] == q;
      assert PacketOk(sent, window, m, buffer, q);
      assert p.n < q.n + window;
    }
  }

  lemma OutOfOrderOk(sent: seq<bytes>, window: nat, r: Endpoint, data: seq<Packet>)
    requires ReceiverOk(sent, r) && DataOk(sent, window, |r.got|, r.st.recvBuffer, data)
    requires data != [] && data[0].frame.flags.Data? && |r.got| < data[0].n < |r.got| + 0x8000
    ensures var t := Sequenced(r, data[0].frame);
            t.got == r.got && ReceiverOk(sent, t) && DataOk(sent, window, |t.got|, t.st.recvBuffer, data[1..])
  {
    var m, p := |r.got|, data[0];
    assert PacketOk(sent, window, m, r.st.recvBuffer, p);
    AheadWrap(m, p.n);
    RingOrder(m, p.n);
    var t := Sequenced(r, p.frame);
    assert t.got == r.got + [];
    forall q | q in data[1..] && q.frame.flags.Data?
      ensures PacketOk(sent, window, m, t.st.recvBuffer, q)
    {
      var i :| 1 <= i < |data| && data[i] == q;
      assert PacketOk(sent, window, m, r.st.recvBuffer, q);
      assert p.n < q.n + window;
    }
  }

  lemma DuplicateOk(sent: seq<bytes>, window: nat, r: Endpoint, data: seq<Packet>)
    requires ReceiverOk(sent, r) && DataOk(sent, window, |r.got|, r.st.recvBuffer, data)
    requires data != [] && data[0].frame.flags.Data? && data[0].n < |r.got| <= data[0].n + 0x8000
    ensures var t := Sequenced(r, data[0].frame);
            t.got == r.got && ReceiverOk(sent, t) && DataOk(sent, window, |t.got|, t.st.recvBuffer, data[1..])
  {
    var m, p := |r.got|, data[0];
    assert PacketOk(sent, window, m, r.st.recvBuffer, p);
    RingOrder(m, p.n);
    if p.frame.seqNo == r.st.recvNext {
      WrapInjective(m, p.n);
    }
    var t := Sequenced(r, p.frame);
    assert t.got == r.got + [];
    DataRemove(sent, window, m, r.st.recvBuffer, data, 0);
    assert data[..0] + data[1..] == data[1..];
  }

  /** Whatever data frame heads the channel, receiving it extends the delivered prefix correctly. */
  lemma SequenceOk(s: Endpoint, r: Endpoint, data: seq<Packet>)
    requires SenderOk(s) && ReceiverOk(s.sent, r) && s.una <= |r.got|
    requires DataOk(s.sent, s.st.windowSize, |r.got|, r.st.recvBuffer, data)
    requires data != [] && data[0].frame.flags.Data?
    ensures var t := Sequenced(r, data[0].frame);
            && ReceiverOk(s.sent, t) && |r.got| <= |t.got|
            && DataOk(s.sent, s.st.windowSize, |t.got|, t.st.recvBuffer, data[1..])
  {
    var m, n := |r.got|, data[0].n;
    assert PacketOk(s.sent, s.st.windowSize, m, r.st.recvBuffer, data[0]);
    if n == m {
      InOrderOk(s.sent, s.st.windowSize, r, data);
    } else if n > m {
      OutOfOrderOk(s.sent, s.st.windowSize, r, data);
    } else {
      DuplicateOk(s.sent, s.st.windowSize, r, data);
    }
  }

  // ---- Arrivals ----

  lemma OnReceiveData(e: Endpoint, p: Packet, now: int)
    requires p.frame.flags.Data? && e.st.deliverQueue == []
    ensures var r := OnReceive(e.st, p.frame, now);
      var t := Sequenced(e, p.frame);
      && e.got + r.delivered == t.got
      && r.responses == Sequence(e.st, p.frame).1 + [AckFrame(0, t.st.recvNext)]
      && r.state == (if p.frame.ack != 0 then HandleAck(t.st, p.frame.ack, now) else t.st)
  {
  }

  /** Taking an acknowledgement: the sender's side of the arrival of any packet that carries one. */
  lemma TakeAck(e: Endpoint, r: Endpoint, out: seq<Packet>, back: seq<Packet>, now: int)
    requires Flow(e, r, out, back) && back != []
    requires |e.sent| <= back[0].k + 0x8001
    ensures var k := back[0].k;
      var st := HandleAck(e.st, back[0].frame.ack, now);
      && st == e.st.(inflight := st.inflight, dupAckCount := st.dupAckCount, lastAck := st.lastAck)
      && Flow(WithSt(e, st, Later(e.una, k)), r, out, back[1..])
  {
    assert back[0] in back;
    AckRemoves(e, back[0].k, now);
    AcksTaken(e.una, |r.got|, back);
  }

  lemma AcksTaken(una: nat, m: nat, acks: seq<Packet>)
    requires AcksOk(una, m, acks) && acks != []
    ensures AcksOk(Later(una, acks[0].k), m, acks[1..])
  {
    AcksRemove(una, m, acks, 0);
    assert acks[..0] + acks[1..] == acks[1..];
    forall p | p in acks[1..] && p.frame.flags.Ack? ensures acks[0].k <= p.k {
      var i :| 1 <= i < |acks| && acks[i] == p;
    }
  }

  ghost function Acked(e: Endpoint, p: Packet, now: int): Endpoint {
    WithSt(e, HandleAck(e.st, p.frame.ack, now), Later(e.una, p.k))
  }

  lemma SameReceiver(s: Endpoint, r: Endpoint, r': Endpoint, data: seq<Packet>, acks: seq<Packet>)
    requires Flow(s, r, data, acks)
    requires r' == r.(st := r.st.(inflight := r'.st.inflight, dupAckCount := r'.st.dupAckCount,
            lastAck := r'.st.lastAck),
                      una := r'.una)
    ensures Flow(s, r', data, acks)
  {
  }

  /** Both flows after an acknowledgement is taken from a packet whose data part is done with. */
  lemma TakeAckBoth(e: Endpoint, r: Endpoint, out: seq<Packet>, back: seq<Packet>, now: int)
    requires Flow(e, r, out, back) && back != [] && Flow(r, e, back[1..], out)
    requires |e.sent| <= back[0].k + 0x8001
    ensures var t := Acked(e, back[0], now);
      Flow(t, r, out, back[1..]) && Flow(r, t, back[1..], out)
  {
    TakeAck(e, r, out, back, now);
    SameReceiver(r, e, Acked(e, back[0], now), back[1..], out);
  }

  /** A flow without the acknowledgement at the head of its return channel. */
  lemma SkipPacket(e: Endpoint, r: Endpoint, out: seq<Packet>, back: seq<Packet>)
    requires Flow(e, r, out, back) && back != []
    ensures Flow(e, r, out, back[1..])
  {
    AcksRemove(e.una, |r.got|, back, 0);
    assert back[..0] + back[1..] == back[1..];
  }

  /** A flow without the packet at the head of its data channel. */
  lemma SkipData(s: Endpoint, r: Endpoint, data: seq<Packet>, acks: seq<Packet>)
    requires Flow(s, r, data, acks) && data != []
    ensures Flow(s, r, data[1..], acks)
  {
    DataRemove(s.sent, s.st.windowSize, |r.got|, r.st.recvBuffer, data, 0);
    assert data[..0] + data[1..] == data[1..];
  }

  function Answer(e: Endpoint, frame: Frame): seq<Packet> {
    var t := Sequenced(e, frame);
    Responses(Sequence(e.st, frame).1 + [AckFrame(0, t.st.recvNext)], |t.got|)
  }

  /** The receiver's side of the arrival of a data frame. */
  lemma TakeData(r: Endpoint, e: Endpoint, back: seq<Packet>, out: seq<Packet>)
    requires Flow(r, e, back, out) && back != [] && back[0].frame.flags.Data?
    ensures var t := Sequenced(e, back[0].frame);
      Flow(r, t, back[1..], out + Answer(e, back[0].frame)) && |e.got| <= |t.got|
  {
    var t := Sequenced(e, back[0].frame);
    SequenceOk(r, e, back);
    assert AcksOk(r.una, |t.got|, out);
    NackNames(e, back[0].frame);
    AcksAppend(r.una, |t.got|, out, Answer(e, back[0].frame));
  }

  /** A NACK is sent for the frame the receiver waits for, and only while it stays put. */
  lemma NackNames(e: Endpoint, frame: Frame)
    requires e.st.recvNext == Wrap(|e.got|) && e.st.deliverQueue == []
    ensures var responses := Sequence(e.st, frame).1;
      responses == [] || (Sequenced(e, frame).got == e.got
                          && responses == [NackFrame(0, Wrap(|e.got|), Wrap(|e.got|))])
  {
  }

  /** The sender's side of the same arrival: the answer carries no data. */
  lemma AnswerKeepsFlow(e: Endpoint, r: Endpoint, out: seq<Packet>, back: seq<Packet>, frame: Frame)
    requires Flow(e, r, out, back) && |e.got| <= |Sequenced(e, frame).got|
    ensures Flow(Sequenced(e, frame), r, out + Answer(e, frame), back)
  {
    DataAppend(e.sent, e.st.windowSize, |r.got|, r.st.recvBuffer, out, Answer(e, frame));
    SequencedSender(e, frame);
  }

  lemma SequencedSender(e: Endpoint, frame: Frame)
    requires SenderOk(e)
    ensures SenderOk(Sequenced(e, frame))
  {
    var t := Sequenced(e, frame);
    forall k | k in t.st.inflight ensures InflightOk(t, k) {
      assert InflightOk(e, k);
    }
  }

  lemma DataArrives(net: Net, now: int)
    requires Inv(net) && FreshLeft(net, Arrive(now))
    requires net.back != [] && net.back[0].frame.flags.Data?
    ensures Inv(StepLeft(net, Arrive(now)))
  {
    var e, r, p := net.left, net.right, net.back[0];
    var t, out := Sequenced(e, p.frame), net.out + Answer(e, p.frame);
    TakeData(r, e, net.back, net.out);
    AnswerKeepsFlow(e, r, net.out, net.back, p.frame);
    DataStep(net, now);
    if p.frame.ack != 0 {
      TakeAckBoth(t, r, out, net.back, now);
    } else {
      SkipPacket(t, r, out, net.back);
    }
  }

  lemma DataStep(net: Net, now: int)
    requires net.left.st.deliverQueue == []
    requires net.back != [] && net.back[0].frame.flags.Data?
    ensures var p := net.back[0];
      var t := Sequenced(net.left, p.frame);
      StepLeft(net, Arrive(now))
      == Net(if p.frame.ack != 0 then Acked(t, p, now) else t, net.right, net.out + Answer(net.left, p.frame),
              net.back[1..])
  {
    OnReceiveData(net.left, net.back[0], now);
  }

  lemma AckArrives(net: Net, now: int)
    requires Inv(net)
    requires net.back != [] && net.back[0].frame.flags.Ack?
    ensures Inv(StepLeft(net, Arrive(now)))
  {
    var e, r, p := net.left, net.right, net.back[0];
    assert p in net.back;
    SkipData(r, e, net.back, net.out);
    TakeAckBoth(e, r, net.out, net.back, now);
    AckStep(net, now);
  }

  lemma AckStep(net: Net, now: int)
    requires net.left.st.deliverQueue == []
    requires net.back != [] && net.back[0].frame.flags.Ack?
    ensures StepLeft(net, Arrive(now)) == Net(Acked(net.left, net.back[0], now), net.right, net.out, net.back[1..])
  {
    assert net.out + Responses([], |net.left.got|) == net.out;
    assert net.left.got + [] == net.left.got;
  }

  lemma NackKeepsSender(e: Endpoint, missing: u16, now: int)
    requires SenderOk(e)
    ensures SenderOk(e.(st := HandleNack(e.st, missing, now)))
  {
    var f := e.(st := HandleNack(e.st, missing, now));
    forall k | k in f.st.inflight ensures InflightOk(f, k) {
      assert InflightOk(e, k);
    }
  }

  lemma NackArrives(net: Net, now: int)
    requires Inv(net)
    requires net.back != [] && net.back[0].frame.flags.Nack?
    ensures Inv(StepLeft(net, Arrive(now)))
  {
    var e, r, p := net.left, net.right, net.back[0];
    SkipData(r, e, net.back, net.out);
    NackBoth(e, r, net.out, net.back, now);
    NackStep(net, now);
  }

  lemma NackBoth(e: Endpoint, r: Endpoint, out: seq<Packet>, back: seq<Packet>, now: int)
    requires Flow(e, r, out, back) && back != [] && back[0].frame.flags.Nack? && Flow(r, e, back[1..], out)
    requires e.st.deliverQueue == []
    ensures var t := Nacked(e, back[0], now);
      Flow(t, r, out, back[1..]) && Flow(r, t, back[1..], out)
  {
    SkipPacket(e, r, out, back);
    NackKeepsFlow(e, r, out, back[1..], back[0].frame, now);
    SameReceiver(r, e, Nacked(e, back[0], now), back[1..], out);
  }

  ghost function Nacked(e: Endpoint, p: Packet, now: int): Endpoint {
    WithSt(e, OnReceive(e.st, p.frame, now).state, e.una)
  }

  lemma NackStep(net: Net, now: int)
    requires net.left.st.deliverQueue == []
    requires net.back != [] && net.back[0].frame.flags.Nack?
    ensures StepLeft(net, Arrive(now)) == Net(Nacked(net.left, net.back[0], now), net.right, net.out, net.back[1..])
  {
    assert net.out + Responses([], |net.left.got|) == net.out;
    assert net.left.got + [] == net.left.got;
  }

  lemma NackKeepsFlow(e: Endpoint, r: Endpoint, out: seq<Packet>, back: seq<Packet>, frame: Frame, now: int)
    requires Flow(e, r, out, back) && frame.flags.Nack? && e.st.deliverQueue == []
    ensures Flow(WithSt(e, OnReceive(e.st, frame, now).state, e.una), r, out, back)
  {
    if |frame.payload| >= 2 {
      NackKeepsSender(e, U16FromBe(frame.payload[0], frame.payload[1]), now);
    }
  }

  // ---- Retransmission ----

  /** A poll resends genuine frames: each stands for a number at or past `una`, with the payload
      and the acknowledgement it was first sent with. */
  lemma {:induction false} ResentOk(e: Endpoint, now: int, order: seq<u16>, f: Frame)
    requires SenderOk(e)
    requires forall i :: 0 <= i < |order| ==> order[i] in e.st.inflight
    requires f in Resent(e.st, now, order)
    ensures f.seqNo in e.st.inflight && f == e.st.inflight[f.seqNo].frame
  {
    assert InflightOk(e, order[0]);
    var entry := e.st.inflight[order[0]];
    if !(Resends(entry, e.st.rto, now) && f == entry.frame) {
      assert Resent(e.st, now, order)
          == (if Resends(entry, e.st.rto, now) then [entry.frame] else []) + Resent(e.st, now, order[1..]);
      ResentOk(e, now, order[1..], f);
    }
  }

  lemma PollKeepsSender(e: Endpoint, now: int)
    requires SenderOk(e) && AfterPoll(e.st, now).inflight.Keys == e.st.inflight.Keys
    ensures SenderOk(e.(st := AfterPoll(e.st, now)))
  {
    var f := e.(st := AfterPoll(e.st, now));
    forall k | k in f.st.inflight ensures InflightOk(f, k) {
      assert InflightOk(e, k);
    }
  }

  lemma RetransmitsOk(e: Endpoint, r: Endpoint, out: seq<Packet>, back: seq<Packet>, now: int, order: seq<u16>)
    requires Flow(e, r, out, back) && Lists(order, e.st.inflight.Keys)
    ensures forall p :: p in Retransmits(e, Resent(e.st, now, order)) ==>
      && p.frame.flags.Data? && PacketOk(e.sent, e.st.windowSize, |r.got|, r.st.recvBuffer, p)
      && |e.sent| <= p.n + e.st.windowSize
      && p.frame.ack == Wrap(p.k) && p.k <= |e.got|
  {
    var frames := Resent(e.st, now, order);
    var more := Retransmits(e, frames);
    forall p | p in more
      ensures p.frame.flags.Data? && PacketOk(e.sent, e.st.windowSize, |r.got|, r.st.recvBuffer, p)
      ensures |e.sent| <= p.n + e.st.windowSize
      ensures p.frame.ack == Wrap(p.k) && p.k <= |e.got|
    {
      var i :| 0 <= i < |more| && more[i] == p;
      assert frames[i] in frames;
      ResentOk(e, now, order, frames[i]);
      assert InflightOk(e, frames[i].seqNo);
      WrapAhead(e.una, frames[i].seqNo);
    }
  }

  lemma PollKeepsInv(net: Net, now: int, order: seq<u16>)
    requires Inv(net)
    requires !StepLeft(net, Poll(now, order)).left.lost
    ensures Inv(StepLeft(net, Poll(now, order)))
  {
    var e, r := net.left, net.right;
    if Lists(order, e.st.inflight.Keys) {
      var more := Retransmits(e, Resent(e.st, now, order));
      RetransmitsOk(e, r, net.out, net.back, now, order);
      PollKeepsOwnFlow(e, r, net.out, net.back, now, more);
      PollKeepsOtherFlow(e, r, net.out, net.back, now, more);
    }
  }

  lemma PollKeepsOwnFlow(e: Endpoint, r: Endpoint, out: seq<Packet>, back: seq<Packet>, now: int, more: seq<Packet>)
    requires Flow(e, r, out, back) && !AfterPolling(e, now).lost
    requires forall p :: p in more ==>
      && p.frame.flags.Data? && |e.sent| <= p.n + e.st.windowSize
      && PacketOk(e.sent, e.st.windowSize, |r.got|, r.st.recvBuffer, p)
    ensures Flow(AfterPolling(e, now), r, out + more, back)
  {
    PollKeepsSender(e, now);
    DataAppend(e.sent, e.st.windowSize, |r.got|, r.st.recvBuffer, out, more);
  }

  lemma PollKeepsOtherFlow(e: Endpoint, r: Endpoint, out: seq<Packet>, back: seq<Packet>, now: int, more: seq<Packet>)
    requires Flow(r, e, back, out)
    requires forall p :: p in more ==> p.frame.flags.Data? && p.frame.ack == Wrap(p.k) && p.k <= |e.got|
    ensures Flow(r, AfterPolling(e, now), back, out + more)
  {
    AcksAppend(r.una, |e.got|, out, more);
  }

  // ---- Theorems ----

  lemma StepLeftKeepsInv(net: Net, ev: Event)
    requires Inv(net) && FreshLeft(net, ev) && !StepLeft(net, ev).left.lost
    ensures Inv(StepLeft(net, ev))
  {
    match ev
    case Send(payload, now) => SendKeepsInv(net, payload, now);
    case Lose(i) => LoseKeepsInv(net, i);
    case Poll(now, order) => PollKeepsInv(net, now, order);
    case Arrive(now) =>
      if net.back != [] {
        assert net.back[0] in net.back;
        match net.back[0].frame.flags
        case Ack => AckArrives(net, now);
        case Nack => NackArrives(net, now);
        case _ => DataArrives(net, now);
      }
  }

  predicate Dropped(net: Net) {
    net.left.lost || net.right.lost
  }

  lemma StepKeepsInv(net: Net, act: Act)
    requires Inv(net) && Fresh(net, act) && !Dropped(Step(net, act))
    ensures Inv(Step(net, act))
  {
    match act
    case OnLeft(ev) => StepLeftKeepsInv(net, ev);
    case OnRight(ev) => StepLeftKeepsInv(Flip(net), ev);
  }

  lemma DroppedStays(net: Net, act: Act)
    requires Dropped(net)
    ensures Dropped(Step(net, act))
  {
  }

  lemma {:induction false} DroppedStaysForever(net: Net, acts: seq<Act>)
    requires Dropped(net)
    ensures Dropped(Exec(net, acts))
    decreases acts
  {
    if acts != [] {
      DroppedStays(net, acts[0]);
      DroppedStaysForever(Step(net, acts[0]), acts[1..]);
    }
  }

  lemma {:induction false} RunKeepsInv(net: Net, acts: seq<Act>)
    requires Inv(net) && FreshRun(net, acts) && !Dropped(Exec(net, acts))
    ensures Inv(Exec(net, acts))
    decreases acts
  {
    if acts != [] {
      var next := Step(net, acts[0]);
      if Dropped(next) {
        DroppedStaysForever(next, acts[1..]);
      }
      StepKeepsInv(net, acts[0]);
      RunKeepsInv(next, acts[1..]);
    }
  }

  /** Two fresh layers with windows below half the ring. */
  function Start(rto: nat, window: nat, rto': nat, window': nat): Net {
    Net(NewEndpoint(rto, window), NewEndpoint(rto', window'), [], [])
  }

  /** Over every run in which no frame has been dropped for its retries, both directions deliver
      exactly a prefix of the payloads accepted: in order, once each, through any number of wraps. */
  lemma ExactlyOnceInOrder(rto: nat, window: nat, rto': nat, window': nat, acts: seq<Act>)
    requires window < 0x8000 && window' < 0x8000
    requires FreshRun(Start(rto, window, rto', window'), acts)
    ensures var net := Exec(Start(rto, window, rto', window'), acts);
      !Dropped(net) ==> net.right.got <= net.left.sent && net.left.got <= net.right.sent
  {
    var net := Start(rto, window, rto', window');
    StartInv(rto, window, rto', window');
    if !Dropped(Exec(net, acts)) {
      RunKeepsInv(net, acts);
    }
  }

  // ---- One direction ----

  ghost predicate OneWay(net: Net) {
    && net.right.sent == []
    && net.left.got == []
    && (forall p :: p in net.back ==> p.frame.flags.IsAckOnly())
    && (forall p :: p in net.out && !p.frame.flags.IsAckOnly() ==> p.frame.ack == 0)
  }

  predicate NoRightSend(acts: seq<Act>) {
    forall i :: 0 <= i < |acts| ==> !(acts[i].OnRight? && acts[i].ev.Send?)
  }

  lemma OneWayIsFresh(net: Net, act: Act)
    requires Inv(net) && OneWay(net)
    ensures Fresh(net, act)
  {
    assert net.back != [] ==> net.back[0] in net.back;
    assert net.out != [] ==> net.out[0] in net.out;
  }

  lemma OneWayRightArrive(net: Net, now: int)
    requires Inv(net) && OneWay(net)
    ensures OneWay(Step(net, OnRight(Arrive(now))))
  {
    if net.out != [] {
      OneWayAnswers(net.right.st, net.out[0].frame, now);
    }
  }

  lemma ListsSome(order: seq<u16>, keys: set<u16>)
    requires Lists(order, keys) && order != []
    ensures keys != {}
  {
    assert order[0] in keys;
  }

  lemma OneWayRightPoll(net: Net, now: int, order: seq<u16>)
    requires SenderOk(net.right) && OneWay(net)
    ensures OneWay(Step(net, OnRight(Poll(now, order))))
  {
    var e := net.right;
    InflightIsRange(e);
    assert e.st.inflight.Keys == {};
    if Lists(order, e.st.inflight.Keys) {
      if order != [] { ListsSome(order, e.st.inflight.Keys); }
      assert net.back + Retransmits(e, Resent(e.st, now, order)) == net.back;
    }
  }

  lemma OneWayLeftArrive(net: Net, now: int)
    requires Inv(net) && OneWay(net)
    ensures OneWay(Step(net, OnLeft(Arrive(now))))
  {
    if net.back != [] {
      var p := net.back[0];
      assert p in net.back;
      var r := OnReceive(net.left.st, p.frame, now);
      assert r.responses == [] && r.delivered == [];
      assert net.out + Responses(r.responses, |net.left.got + r.delivered|) == net.out;
    }
  }

  lemma OneWayLeftPoll(net: Net, now: int, order: seq<u16>)
    requires Inv(net) && OneWay(net)
    ensures OneWay(Step(net, OnLeft(Poll(now, order))))
  {
    var e := net.left;
    if Lists(order, e.st.inflight.Keys) {
      forall p | p in Retransmits(e, Resent(e.st, now, order)) ensures p.frame.ack == 0 {
        RetransmitCarriesZero(e, now, order, p);
      }
    }
  }

  lemma RetransmitCarriesZero(e: Endpoint, now: int, order: seq<u16>, p: Packet)
    requires SenderOk(e) && e.got == [] && Lists(order, e.st.inflight.Keys)
    requires p in Retransmits(e, Resent(e.st, now, order))
    ensures p.frame.ack == 0
  {
    var more := Retransmits(e, Resent(e.st, now, order));
    var i :| 0 <= i < |more| && more[i] == p;
    ResentOk(e, now, order, p.frame);
    CarriesZero(e, p.frame.seqNo);
  }

  lemma CarriesZero(e: Endpoint, k: u16)
    requires SenderOk(e) && e.got == [] && k in e.st.inflight
    ensures e.st.inflight[k].frame.ack == 0
  {
    assert InflightOk(e, k);
    var n := Ahead(e.una, k);
    assert e.acks[n] == 0;
    assert e.st.inflight[k].frame.ack == Wrap(e.acks[n]);
  }

  lemma OneWayStays(net: Net, act: Act)
    requires Inv(net) && OneWay(net) && !(act.OnRight? && act.ev.Send?)
    ensures OneWay(Step(net, act))
  {
    match act
    case OnRight(Arrive(now)) => OneWayRightArrive(net, now);
    case OnRight(Poll(now, order)) => OneWayRightPoll(net, now, order);
    case OnLeft(Arrive(now)) => OneWayLeftArrive(net, now);
    case OnLeft(Poll(now, order)) => OneWayLeftPoll(net, now, order);
    case _ =>
  }

  lemma OneWayAnswers(s: State, frame: Frame, now: int)
    ensures forall f :: f in OnReceive(s, frame, now).responses ==> f.flags.IsAckOnly()
  {
  }

  lemma {:induction false} OneWayRun(net: Net, acts: seq<Act>)
    requires Inv(net) && OneWay(net) && NoRightSend(acts) && !Dropped(Exec(net, acts))
    ensures FreshRun(net, acts)
    decreases acts
  {
    if acts != [] {
      var next := Step(net, acts[0]);
      OneWayIsFresh(net, acts[0]);
      if Dropped(next) {
        DroppedStaysForever(next, acts[1..]);
      }
      StepKeepsInv(net, acts[0]);
      OneWayStays(net, acts[0]);
      OneWayRun(next, acts[1..]);
    }
  }

  /** With data in one direction only, delivery needs no assumption on how old an ACK may be. */
  lemma OneWayExactlyOnceInOrder(rto: nat, window: nat, rto': nat, window': nat, acts: seq<Act>)
    requires window < 0x8000 && window' < 0x8000
    requires NoRightSend(acts)
    ensures var net := Exec(Start(rto, window, rto', window'), acts);
      !Dropped(net) ==> net.right.got <= net.left.sent
  {
    var net := Start(rto, window, rto', window');
    assert Inv(net) && OneWay(net);
    if !Dropped(Exec(net, acts)) {
      OneWayRun(net, acts);
      ExactlyOnceInOrder(rto, window, rto', window', acts);
    }
  }

  // ---- What an acknowledgement removes ----

  /** A carried ACK leaves exactly the frames it does not cover, if and only if the newest frame in
      flight is at most 2^15 past it. */
  lemma AckRemovesExactlyIff(e: Endpoint, k: nat, now: int)
    requires SenderOk(e) && e.una < |e.sent|
    requires k <= |e.sent| < k + 0x1_0000
    ensures HandleAck(e.st, Wrap(k), now).inflight.Keys == RingRange(Later(e.una, k), |e.sent|)
       <==> |e.sent| <= k + 0x8001
  {
    if |e.sent| <= k + 0x8001 {
      AckRemoves(e, k, now);
      InflightIsRange(e.(st := HandleAck(e.st, Wrap(k), now), una := Later(e.una, k)));
    } else {
      var n := |e.sent| - 1;
      RingOrder(n, k);
      assert Wrap(n) in RingRange(e.una, |e.sent|);
    }
  }

  /** Acknowledging `d` frames in flight removes all of them exactly while `d` is below 2^15; at
      2^15 the oldest one stays, so larger windows are out. */
  lemma FullAckRemovesAllIff(una: nat, d: nat, ack: u16, inflight: map<u16, Entry>)
    requires 0 < d < 0x1_0000 && inflight.Keys == RingRange(una, una + d)
    requires ack == Wrap(una + d)
    ensures Unacked(inflight, ack) == map[] <==> d < 0x8000
  {
    forall n | una <= n < una + d ensures SeqLt(Wrap(n), ack) <==> una + d - n < 0x8000 {
      RingOrder(n, una + d);
    }
    assert Wrap(una) in inflight;
    if d < 0x8000 {
      forall k | k in inflight ensures SeqLt(k, ack) {
        assert k in RingRange(una, una + d);
        var n :| una <= n < una + d && Wrap(n) == k;
      }
    } else {
      assert Wrap(una) in Unacked(inflight, ack);
    }
  }

  // ---- Progress ----

  /** The frame the receiver waits for, which a NACK of its names, is in flight. */
  lemma AwaitedFrameInFlight(net: Net)
    requires Inv(net) && |net.right.got| < |net.left.sent|
    ensures var next := net.right.st.recvNext;
      && next in net.left.st.inflight
      && net.left.st.inflight[next].frame.seqNo == next
      && net.left.st.inflight[next].frame.payload == net.left.sent[|net.right.got|]
      && net.left.st.inflight[next].frame.flags.Data?
  {
    var n := |net.right.got|;
    assert InflightOk(net.left, Wrap(n));
    AheadWrap(net.left.una, n);
  }

  function LoseFirst(j: nat): (acts: seq<Act>)
    ensures |acts| == j
  {
    seq(j, _ => OnRight(Lose(0)))
  }

  lemma {:induction false} LosePrefix(net: Net, j: nat)
    requires j <= |net.out|
    ensures Exec(net, LoseFirst(j)) == net.(out := net.out[j..])
    decreases j
  {
    if j > 0 {
      var next := net.(out := net.out[1..]);
      assert net.out[..0] + net.out[1..] == net.out[1..];
      assert Step(net, OnRight(Lose(0))) == next;
      assert LoseFirst(j)[1..] == LoseFirst(j - 1);
      LosePrefix(next, j - 1);
      assert net.out[1..][j - 1..] == net.out[j..];
    }
  }

  lemma {:induction false} ExecConcat(net: Net, p: seq<Act>, q: seq<Act>)
    ensures Exec(net, p + q) == Exec(Exec(net, p), q)
    decreases p
  {
    if p == [] {
      assert p + q == q;
    } else {
      assert (p + q)[1..] == p[1..] + q;
      ExecConcat(Step(net, p[0]), p[1..], q);
    }
  }

  lemma {:induction false} ResentHas(s: State, now: int, order: seq<u16>, k: u16)
    requires forall i :: 0 <= i < |order| ==> order[i] in s.inflight
    requires k in order && Resends(s.inflight[k], s.rto, now)
    ensures s.inflight[k].frame in Resent(s, now, order)
  {
    if order[0] != k {
      ResentHas(s, now, order[1..], k);
    }
  }

  /** `frame` is the one the right end waits for, as the left end keeps it. */
  predicate Awaited(net: Net, frame: Frame) {
    var next := net.right.st.recvNext;
    next in net.left.st.inflight && net.left.st.inflight[next].frame == frame
  }

  /** When the awaited frame heads the channel, its arrival delivers at least one payload. */
  lemma AwaitedFrameAdvances(net: Net, now: int)
    requires Inv(net) && |net.right.got| < |net.left.sent|
    requires net.out != [] && Awaited(net, net.out[0].frame)
    ensures |Step(net, OnRight(Arrive(now))).right.got| > |net.right.got|
    ensures Dropped(Step(net, OnRight(Arrive(now)))) <==> Dropped(net)
  {
    AwaitedFrameInFlight(net);
    DataStep(Flip(net), now);
    InOrderDrain(net.left.sent, net.right, net.out[0].frame);
  }

  lemma LoseFirstKeepsInv(net: Net)
    requires Inv(net) && net.out != []
    ensures Inv(net.(out := net.out[1..]))
  {
    SkipData(net.left, net.right, net.out, net.back);
    SkipPacket(net.right, net.left, net.back, net.out);
  }

  lemma {:induction false} LosePrefixKeepsInv(net: Net, j: nat)
    requires Inv(net) && j <= |net.out|
    ensures Inv(net.(out := net.out[j..]))
    decreases j
  {
    if j > 0 {
      LosePrefixKeepsInv(net, j - 1);
      LoseFirstKeepsInv(net.(out := net.out[j - 1..]));
      assert net.out[j - 1..][1..] == net.out[j..];
    } else {
      assert net.out[0..] == net.out;
    }
  }

  lemma {:induction false} OrderExists(keys: set<u16>) returns (order: seq<u16>)
    ensures Lists(order, keys)
  {
    order := [];
    if keys != {} {
      var k :| k in keys;
      var rest := OrderExists(keys - {k});
      ListsAppend(rest, keys - {k}, k);
      assert keys - {k} + {k} == keys;
      order := rest + [k];
    }
  }

  lemma PollSends(net: Net, k: u16, now: int, order: seq<u16>) returns (i: nat)
    requires Lists(order, net.left.st.inflight.Keys)
    requires k in net.left.st.inflight && Resends(net.left.st.inflight[k], net.left.st.rto, now)
    ensures var out := StepLeft(net, Poll(now, order)).out;
      i < |out| && out[i].frame == net.left.st.inflight[k].frame
  {
    var e, entry := net.left, net.left.st.inflight[k];
    ResentHas(e.st, now, order, k);
    var frames := Resent(e.st, now, order);
    var j :| 0 <= j < |frames| && frames[j] == entry.frame;
    i := |net.out| + j;
  }

  lemma PollKeepsAwaited(net: Net, now: int, order: seq<u16>, frame: Frame)
    requires !Dropped(net) && Awaited(net, frame)
    requires forall k :: k in net.left.st.inflight ==> net.left.st.inflight[k].retries < MAX_RETRIES - 1
    ensures var next := StepLeft(net, Poll(now, order));
      !Dropped(next) && Awaited(next, frame) && next.right == net.right && next.left.sent == net.left.sent
  {
    assert AfterPoll(net.left.st, now).inflight.Keys == net.left.st.inflight.Keys;
  }

  /** A poll late enough puts the awaited frame on the channel again. */
  lemma PollResendsAwaited(net: Net) returns (poll: Event, i: nat, frame: Frame)
    requires Inv(net) && !Dropped(net) && |net.right.got| < |net.left.sent|
    requires forall k :: k in net.left.st.inflight ==> net.left.st.inflight[k].retries < MAX_RETRIES - 1
    ensures poll.Poll?
    ensures var next := StepLeft(net, poll);
      && !Dropped(next) && next.right == net.right && next.left.sent == net.left.sent
      && i < |next.out| && next.out[i].frame == frame && Awaited(next, frame)
  {
    var e, k := net.left, net.right.st.recvNext;
    AwaitedFrameInFlight(net);
    frame := e.st.inflight[k].frame;
    var now := e.st.inflight[k].sentAt + e.st.rto;
    var order := OrderExists(e.st.inflight.Keys);
    poll := Poll(now, order);
    i := PollSends(net, k, now, order);
    PollKeepsAwaited(net, now, order, frame);
  }

  /** The link is never stuck: while every frame in flight has two attempts left, some way for time
      to pass and the channel to behave makes the receiver deliver more. */
  lemma CanAdvance(net: Net) returns (acts: seq<Act>)
    requires Inv(net) && !Dropped(net) && |net.right.got| < |net.left.sent|
    requires forall k :: k in net.left.st.inflight ==> net.left.st.inflight[k].retries < MAX_RETRIES - 1
    ensures var last := Exec(net, acts); !Dropped(last) && |last.right.got| > |net.right.got|
  {
    var poll, j, frame := PollResendsAwaited(net);
    StepLeftKeepsInv(net, poll);
    var rest := LoseAndArrive(StepLeft(net, poll), j);
    acts := [OnLeft(poll)] + rest;
    ExecFirst(net, OnLeft(poll), rest);
  }

  lemma LoseAndArrive(net: Net, j: nat) returns (acts: seq<Act>)
    requires Inv(net) && !Dropped(net) && |net.right.got| < |net.left.sent|
    requires j < |net.out| && Awaited(net, net.out[j].frame)
    ensures var last := Exec(net, acts); !Dropped(last) && |last.right.got| > |net.right.got|
  {
    var heads := net.(out := net.out[j..]);
    var arrive := OnRight(Arrive(0));
    LosePrefix(net, j);
    LosePrefixKeepsInv(net, j);
    AwaitedFrameAdvances(heads, 0);
    acts := LoseFirst(j) + [arrive];
    ExecConcat(net, LoseFirst(j), [arrive]);
    ExecOne(heads, arrive);
  }

  /** In every reachable state, with no frame dropped so far: while the receiver is behind, the very
      frame it waits for, and names in its NACKs, is in flight. */
  lemma AwaitedFrameAlwaysInFlight(rto: nat, window: nat, rto': nat, window': nat, acts: seq<Act>)
    requires window < 0x8000 && window' < 0x8000
    requires FreshRun(Start(rto, window, rto', window'), acts)
    requires !Dropped(Exec(Start(rto, window, rto', window'), acts))
    ensures var net := Exec(Start(rto, window, rto', window'), acts);
      |net.right.got| < |net.left.sent| ==>
        && net.right.st.recvNext in net.left.st.inflight
        && net.left.st.inflight[net.right.st.recvNext].frame.payload == net.left.sent[|net.right.got|]
  {
    var start := Start(rto, window, rto', window');
    StartInv(rto, window, rto', window');
    RunKeepsInv(start, acts);
    if |Exec(start, acts).right.got| < |Exec(start, acts).left.sent| {
      AwaitedFrameInFlight(Exec(start, acts));
    }
  }

  lemma StartInv(rto: nat, window: nat, rto': nat, window': nat)
    requires window < 0x8000 && window' < 0x8000
    ensures Inv(Start(rto, window, rto', window'))
  {
  }

  /** Every frame in flight has at least two attempts left. */
  predicate AttemptsLeft(s: State) {
    forall k :: k in s.inflight ==> s.inflight[k].retries < MAX_RETRIES - 1
  }

  /** From every reachable state in which the receiver is behind and the frames in flight have
      attempts left, some continuation makes it deliver more. */
  lemma LinkNeverStuck(rto: nat, window: nat, rto': nat, window': nat, past: seq<Act>) returns (future: seq<Act>)
    requires window < 0x8000 && window' < 0x8000
    requires FreshRun(Start(rto, window, rto', window'), past)
    requires var net := Exec(Start(rto, window, rto', window'), past);
      !Dropped(net) && |net.right.got| < |net.left.sent| && AttemptsLeft(net.left.st)
    ensures var net, last := Exec(Start(rto, window, rto', window'), past),
                             Exec(Start(rto, window, rto', window'), past + future);
      !Dropped(last) && |last.right.got| > |net.right.got|
  {
    var start := Start(rto, window, rto', window');
    StartInv(rto, window, rto', window');
    RunKeepsInv(start, past);
    future := CanAdvance(Exec(start, past));
    ExecConcat(start, past, future);
  }

  lemma ExecFirst(net: Net, act: Act, rest: seq<Act>)
    ensures Exec(net, [act] + rest) == Exec(Step(net, act), rest)
  {
    assert ([act] + rest)[1..] == rest;
  }

  lemma ExecOne(net: Net, act: Act)
    ensures Exec(net, [act]) == Step(net, act)
  {
    assert [act][1..] == [];
  }
}
