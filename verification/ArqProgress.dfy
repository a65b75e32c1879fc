/**
 Catching up: whatever has been lost, some way for time to pass and the channels to behave makes the
 right end deliver everything the left end has sent, and empties the left end's table.
 */
module ArqProgress {
  import opened Bytes
  import opened SeqRing
  import opened LinkFrames
  import opened Reliability
  import opened ArqProtocol

  predicate NoSends(acts: seq<Act>) {
    forall i :: 0 <= i < |acts| ==> !acts[i].ev.Send?
  }

  /** A continuation without new payloads that leads from `net` to `next`. */
  ghost predicate Way(net: Net, acts: seq<Act>, next: Net) {
    Exec(net, acts) == next && FreshRun(net, acts) && NoSends(acts)
  }

  lemma {:induction false} WayConcat(net: Net, p: seq<Act>, mid: Net, q: seq<Act>, next: Net)
    requires Way(net, p, mid) && Way(mid, q, next)
    ensures Way(net, p + q, next)
    decreases p
  {
    if p == [] {
      assert p + q == q;
    } else {
      assert (p + q)[0] == p[0] && (p + q)[1..] == p[1..] + q;
      WayConcat(Step(net, p[0]), p[1..], mid, q, next);
    }
  }

  lemma WayOne(net: Net, act: Act)
    requires Fresh(net, act) && !act.ev.Send?
    ensures Way(net, [act], Step(net, act))
  {
    ExecOne(net, act);
    assert [act][1..] == [];
    assert FreshRun(Step(net, act), []);
  }

  // ---- Emptying the channels ----

  lemma {:induction false} LoseOut(net: Net, j: nat) returns (acts: seq<Act>)
    requires j <= |net.out|
    ensures Way(net, acts, net.(out := net.out[j..]))
    decreases j
  {
    acts := [];
    if j == 0 {
      assert net.(out := net.out[0..]) == net;
    } else {
      var act, mid := OnRight(Lose(0)), net.(out := net.out[1..]);
      assert net.out[..0] + net.out[1..] == net.out[1..];
      assert Step(net, act) == mid;
      WayOne(net, act);
      var rest := LoseOut(mid, j - 1);
      assert net.out[1..][j - 1..] == net.out[j..];
      WayConcat(net, [act], mid, rest, net.(out := net.out[j..]));
      acts := [act] + rest;
    }
  }

  lemma {:induction false} LoseBack(net: Net, j: nat) returns (acts: seq<Act>)
    requires j <= |net.back|
    ensures Way(net, acts, net.(back := net.back[j..]))
    decreases j
  {
    acts := [];
    if j == 0 {
      assert net.(back := net.back[0..]) == net;
    } else {
      var act, mid := OnLeft(Lose(0)), net.(back := net.back[1..]);
      assert net.back[..0] + net.back[1..] == net.back[1..];
      assert Step(net, act) == mid;
      WayOne(net, act);
      var rest := LoseBack(mid, j - 1);
      assert net.back[1..][j - 1..] == net.back[j..];
      WayConcat(net, [act], mid, rest, net.(back := net.back[j..]));
      acts := [act] + rest;
    }
  }

  // ---- Delivering what is on the channel ----

  /** The ACK a packet carries is fresh for a sender that has sent `sent` frames. */
  predicate CarriesFresh(p: Packet, sent: nat) {
    p.frame.ack != 0 ==> sent <= p.k + 0x8001
  }

  /** The channel to the right holds the data frames from `a` on, up to the last one sent. */
  ghost predicate Carries(net: Net, a: nat) {
    && a <= |net.right.got| && |net.out| == |net.left.sent| - a
    && forall j :: 0 <= j < |net.out| ==>
         net.out[j].frame.flags.Data? && net.out[j].n == a + j && CarriesFresh(net.out[j], |net.right.sent|)
  }

  /** The last packet on the way back acknowledges everything delivered. */
  ghost predicate AckedLast(net: Net) {
    && net.back != []
    && net.back[|net.back| - 1].frame.flags.Ack? && net.back[|net.back| - 1].k == |net.right.got|
  }

  lemma DeliverOne(net: Net, a: nat)
    requires Inv(net) && !Dropped(net) && Carries(net, a) && net.out != []
    ensures var next := Step(net, OnRight(Arrive(0)));
      && Fresh(net, OnRight(Arrive(0))) && Inv(next) && !Dropped(next) && Carries(next, a + 1) && AckedLast(next)
      && next.left == net.left && next.right.sent == net.right.sent
  {
    var p := net.out[0];
    assert p in net.out;
    StepKeepsInv(net, OnRight(Arrive(0)));
    ArrivedRight(net);
    ReceivedPast(net);
    CarriesOn(net, Step(net, OnRight(Arrive(0))), a);
  }

  lemma CarriesOn(net: Net, next: Net, a: nat)
    requires Carries(net, a) && net.out != [] && next.out == net.out[1..]
    requires next.left == net.left && next.right.sent == net.right.sent && |next.right.got| >= net.out[0].n + 1
    ensures Carries(next, a + 1)
  {
  }

  /** The right end after a data frame has arrived. */
  lemma ArrivedRight(net: Net)
    requires net.right.st.deliverQueue == [] && net.out != [] && net.out[0].frame.flags.Data?
    ensures var next := Step(net, OnRight(Arrive(0)));
      && next.left == net.left && next.out == net.out[1..]
      && next.right.got == Sequenced(net.right, net.out[0].frame).got
      && next.right.sent == net.right.sent && next.right.lost == net.right.lost && AckedLast(next)
  {
    DataStep(Flip(net), 0);
  }

  /** After the arrival of data frame `n`, when all before it are delivered, so is it. */
  lemma ReceivedPast(net: Net)
    requires Inv(net) && net.out != [] && net.out[0].frame.flags.Data? && net.out[0].n <= |net.right.got|
    ensures |Sequenced(net.right, net.out[0].frame).got| >= net.out[0].n + 1
  {
    var p := net.out[0];
    assert p in net.out;
    assert PacketOk(net.left.sent, net.left.st.windowSize, |net.right.got|, net.right.st.recvBuffer, p);
    SequenceOk(net.left, net.right, net.out);
    if p.n == |net.right.got| {
      InOrderDrain(net.left.sent, net.right, p.frame);
    }
  }

  lemma {:induction false} DeliverAll(net: Net, a: nat) returns (acts: seq<Act>, next: Net)
    requires Inv(net) && !Dropped(net) && Carries(net, a) && (net.out == [] ==> AckedLast(net))
    ensures Way(net, acts, next) && Inv(next) && !Dropped(next)
    ensures next.left == net.left && next.right.sent == net.right.sent && next.out == []
    ensures |next.right.got| == |net.left.sent| && AckedLast(next)
    decreases |net.out|
  {
    if net.out == [] {
      acts, next := [], net;
    } else {
      var act := OnRight(Arrive(0));
      DeliverOne(net, a);
      WayOne(net, act);
      var rest;
      rest, next := DeliverAll(Step(net, act), a + 1);
      WayConcat(net, [act], Step(net, act), rest, next);
      acts := [act] + rest;
    }
  }

  // ---- Acknowledging it ----

  /** Everything sent is delivered and acknowledged, and nothing is on the way. */
  ghost predicate Settled(net: Net) {
    && Inv(net) && !Dropped(net)
    && net.left.una == |net.left.sent| == |net.right.got| && net.out == [] && net.back == []
  }

  lemma TakeLastAck(net: Net)
    requires Inv(net) && !Dropped(net) && |net.right.got| == |net.left.sent| && net.out == []
    requires |net.back| == 1 && AckedLast(net)
    ensures var next := Step(net, OnLeft(Arrive(0)));
      && Fresh(net, OnLeft(Arrive(0))) && Settled(next)
      && next.right == net.right && next.left.sent == net.left.sent && next.left.got == net.left.got
  {
    AckStep(net, 0);
    StepKeepsInv(net, OnLeft(Arrive(0)));
  }

  lemma Acknowledge(net: Net) returns (acts: seq<Act>, next: Net)
    requires Inv(net) && !Dropped(net) && |net.right.got| == |net.left.sent| && net.out == [] && AckedLast(net)
    ensures Way(net, acts, next) && Settled(next)
    ensures next.right == net.right && next.left.sent == net.left.sent && next.left.got == net.left.got
  {
    var j := |net.back| - 1;
    var p := LoseBack(net, j);
    var last := net.(back := net.back[j..]);
    RunKeepsInv(net, p);
    TakeLastAck(last);
    WayOne(last, OnLeft(Arrive(0)));
    next := Step(last, OnLeft(Arrive(0)));
    WayConcat(net, p, last, [OnLeft(Arrive(0))], next);
    acts := p + [OnLeft(Arrive(0))];
  }

  // ---- Sending it all again ----

  function Ring(lo: nat, hi: nat): (order: seq<u16>)
    requires lo <= hi
    ensures |order| == hi - lo
    decreases hi - lo
  {
    if lo == hi then [] else [Wrap(lo)] + Ring(lo + 1, hi)
  }

  lemma {:induction false} RingAt(lo: nat, hi: nat, i: nat)
    requires lo <= hi && i < hi - lo
    ensures Ring(lo, hi)[i] == Wrap(lo + i)
    decreases hi - lo
  {
    if i > 0 {
      RingAt(lo + 1, hi, i - 1);
    }
  }

  lemma RingLists(e: Endpoint)
    requires SenderOk(e)
    ensures Lists(Ring(e.una, |e.sent|), e.st.inflight.Keys)
  {
    InflightIsRange(e);
    var order := Ring(e.una, |e.sent|);
    forall k | k in e.st.inflight.Keys ensures k in order {
      InRing(e.una, |e.sent|, k);
    }
    forall i, j | 0 <= i < j < |order| ensures order[i] != order[j] {
      RingDistinct(e.una, |e.sent|, i, j);
    }
    forall i | 0 <= i < |order| ensures order[i] in RingRange(e.una, |e.sent|) {
      RingAt(e.una, |e.sent|, i);
    }
  }

  lemma InRing(lo: nat, hi: nat, k: u16)
    requires lo <= hi && k in RingRange(lo, hi)
    ensures k in Ring(lo, hi)
  {
    var n :| lo <= n < hi && Wrap(n) == k;
    RingAt(lo, hi, n - lo);
  }

  lemma RingDistinct(lo: nat, hi: nat, i: nat, j: nat)
    requires lo <= hi < lo + 0x1_0000 && i < j < hi - lo
    ensures Ring(lo, hi)[i] != Ring(lo, hi)[j]
  {
    RingAt(lo, hi, i);
    RingAt(lo, hi, j);
    if Wrap(lo + i) == Wrap(lo + j) {
      WrapInjective(lo + i, lo + j);
    }
  }

  lemma {:induction false} AllResent(s: State, now: int, order: seq<u16>)
    requires forall i :: 0 <= i < |order| ==> order[i] in s.inflight && Resends(s.inflight[order[i]], s.rto, now)
    ensures |Resent(s, now, order)| == |order|
    ensures forall i :: 0 <= i < |order| ==> Resent(s, now, order)[i] == s.inflight[order[i]].frame
  {
    if order != [] {
      AllResent(s, now, order[1..]);
      assert Resent(s, now, order) == [s.inflight[order[0]].frame] + Resent(s, now, order[1..]);
    }
  }

  lemma {:induction false} LateEnough(inflight: map<u16, Entry>, rto: nat) returns (now: int)
    ensures forall k :: k in inflight ==> Due(inflight[k], rto, now)
    decreases inflight.Keys
  {
    now := 0;
    if inflight.Keys != {} {
      var k :| k in inflight.Keys;
      var rest := inflight - {k};
      var t := LateEnough(rest, rto);
      now := if t < inflight[k].sentAt + rto then inflight[k].sentAt + rto else t;
      assert forall j :: j in inflight ==> j == k || (j in rest && rest[j] == inflight[j]);
    }
  }

  /** The ACKs that the frames in flight carry are fresh for a peer that has sent `sent` frames. */
  ghost predicate AcksFresh(e: Endpoint, sent: nat)
    requires |e.acks| == |e.sent|
  {
    forall n :: e.una <= n < |e.sent| && Wrap(e.acks[n]) != 0 ==> sent <= e.acks[n] + 0x8001
  }

  ghost predicate InflightFresh(net: Net) {
    |net.left.acks| == |net.left.sent| && AcksFresh(net.left, |net.right.sent|)
  }

  /** A late poll in ring order puts every frame in flight on the channel, in order. */
  lemma PollAllDue(net: Net, now: int)
    requires Inv(net) && !Dropped(net) && AttemptsLeft(net.left.st) && InflightFresh(net)
    requires forall k :: k in net.left.st.inflight ==> Due(net.left.st.inflight[k], net.left.st.rto, now)
    ensures var act := OnLeft(Poll(now, Ring(net.left.una, |net.left.sent|)));
      var next := Step(net, act);
      && Fresh(net, act) && Inv(next) && !Dropped(next)
      && next.left.sent == net.left.sent && next.left.una == net.left.una && next.right == net.right
      && |next.out| >= |net.out| && Carries(next.(out := next.out[|net.out|..]), net.left.una)
      && next.left.got == net.left.got
  {
    var e, order := net.left, Ring(net.left.una, |net.left.sent|);
    RingLists(e);
    PollDropsNothing(e.st, now);
    StepKeepsInv(net, OnLeft(Poll(now, order)));
    ResentInOrder(e, |net.right.sent|, now);
    var more := Retransmits(e, Resent(e.st, now, order));
    assert (net.out + more)[|net.out|..] == more;
  }

  lemma PollDropsNothing(s: State, now: int)
    requires AttemptsLeft(s)
    ensures AfterPoll(s, now).inflight.Keys == s.inflight.Keys
  {
  }

  lemma ResentInOrder(e: Endpoint, sent: nat, now: int)
    requires SenderOk(e) && AttemptsLeft(e.st)
    requires forall k :: k in e.st.inflight ==> Due(e.st.inflight[k], e.st.rto, now)
    requires AcksFresh(e, sent)
    ensures var order := Ring(e.una, |e.sent|);
      && Lists(order, e.st.inflight.Keys)
      && var more := Retransmits(e, Resent(e.st, now, order));
         && |more| == |e.sent| - e.una
         && forall j :: 0 <= j < |more| ==>
              IsData(e, sent, more[j], e.una + j)
  {
    RingLists(e);
    AllData(e, sent);
    RingIsData(e, sent);
    WholeRingResent(e.st, now, Ring(e.una, |e.sent|));
  }

  /** Frame `k` in flight would be resent as data frame `n`. */
  ghost predicate DataAt(e: Endpoint, sent: nat, k: u16, n: nat) {
    k in e.st.inflight && IsData(e, sent, Retransmit(e, e.st.inflight[k].frame), n)
  }

  lemma AllData(e: Endpoint, sent: nat)
    requires SenderOk(e) && AcksFresh(e, sent)
    ensures forall n: nat :: e.una <= n < |e.sent| ==> DataAt(e, sent, Wrap(n), n)
  {
    forall n: nat | e.una <= n < |e.sent| ensures DataAt(e, sent, Wrap(n), n) {
      ResentAt(e, sent, n);
    }
  }

  lemma RingIsData(e: Endpoint, sent: nat)
    requires e.una <= |e.sent|
    requires forall n: nat :: e.una <= n < |e.sent| ==> DataAt(e, sent, Wrap(n), n)
    ensures forall j :: 0 <= j < |e.sent| - e.una ==> DataAt(e, sent, Ring(e.una, |e.sent|)[j], e.una + j)
  {
    forall j | 0 <= j < |e.sent| - e.una ensures DataAt(e, sent, Ring(e.una, |e.sent|)[j], e.una + j) {
      RingAt(e.una, |e.sent|, j);
      assert DataAt(e, sent, Wrap(e.una + j), e.una + j);
    }
  }

  lemma WholeRingResent(s: State, now: int, order: seq<u16>)
    requires AttemptsLeft(s) && Lists(order, s.inflight.Keys)
    requires forall k :: k in s.inflight ==> Due(s.inflight[k], s.rto, now)
    ensures |Resent(s, now, order)| == |order|
    ensures forall i :: 0 <= i < |order| ==> Resent(s, now, order)[i] == s.inflight[order[i]].frame
  {
    AllDueResend(s, now, order);
    AllResent(s, now, order);
  }

  /** The packet is data frame `n`, with a fresh ACK. */
  predicate IsData(e: Endpoint, sent: nat, p: Packet, n: nat) {
    p.frame.flags.Data? && p.n == n && CarriesFresh(p, sent)
  }

  lemma ResentAt(e: Endpoint, sent: nat, n: nat)
    requires SenderOk(e) && AcksFresh(e, sent) && e.una <= n < |e.sent|
    ensures Wrap(n) in e.st.inflight && IsData(e, sent, Retransmit(e, e.st.inflight[Wrap(n)].frame), n)
  {
    RetransmitAt(e, n);
  }

  lemma AllDueResend(s: State, now: int, order: seq<u16>)
    requires AttemptsLeft(s) && Lists(order, s.inflight.Keys)
    requires forall k :: k in s.inflight ==> Due(s.inflight[k], s.rto, now)
    ensures forall i :: 0 <= i < |order| ==> Resends(s.inflight[order[i]], s.rto, now)
  {
  }

  lemma RetransmitAt(e: Endpoint, n: nat)
    requires SenderOk(e) && e.una <= n < |e.sent|
    ensures Wrap(n) in e.st.inflight
    ensures var p := Retransmit(e, e.st.inflight[Wrap(n)].frame);
      p.frame.flags.Data? && p.n == n && p.k == e.acks[n] && p.frame.ack == Wrap(p.k)
  {
    var k := Wrap(n);
    assert InflightOk(e, k);
    AheadWrap(e.una, n);
  }

  /** From any state with attempts left everything sent can be settled. */
  lemma Settle(net: Net) returns (acts: seq<Act>, next: Net)
    requires Inv(net) && !Dropped(net) && AttemptsLeft(net.left.st) && InflightFresh(net)
    ensures Way(net, acts, next) && Settled(next)
    ensures next.left.sent == net.left.sent && next.right.sent == net.right.sent && next.left.got == net.left.got
  {
    if net.left.una == |net.left.sent| {
      var p := LoseOut(net, |net.out|);
      var mid := net.(out := net.out[|net.out|..]);
      var q := LoseBack(mid, |mid.back|);
      next := mid.(back := mid.back[|mid.back|..]);
      WayConcat(net, p, mid, q, next);
      acts := p + q;
      RunKeepsInv(net, acts);
    } else {
      var now := LateEnough(net.left.st.inflight, net.left.st.rto);
      var poll := OnLeft(Poll(now, Ring(net.left.una, |net.left.sent|)));
      PollAllDue(net, now);
      WayOne(net, poll);
      var polled := Step(net, poll);
      var q := LoseOut(polled, |net.out|);
      var clear := polled.(out := polled.out[|net.out|..]);
      RunKeepsInv(polled, q);
      WayConcat(net, [poll], polled, q, clear);
      var r, end := DeliverAndAcknowledge(clear, net.left.una);
      WayConcat(net, [poll] + q, clear, r, end);
      acts, next := [poll] + q + r, end;
    }
  }

  lemma DeliverAndAcknowledge(net: Net, a: nat) returns (acts: seq<Act>, next: Net)
    requires Inv(net) && !Dropped(net) && Carries(net, a) && net.out != []
    ensures Way(net, acts, next) && Settled(next)
    ensures next.left.sent == net.left.sent && next.right.sent == net.right.sent && next.left.got == net.left.got
  {
    var p, mid := DeliverAll(net, a);
    var q, end := Acknowledge(mid);
    WayConcat(net, p, mid, q, end);
    acts, next := p + q, end;
  }

  /** In a settled state one more payload can be sent and settled. */
  lemma SendFromSettled(net: Net, payload: bytes)
    requires Settled(net) && net.left.st.windowSize > 0 && |payload| <= MAX_PAYLOAD_SIZE
    ensures var next := Step(net, OnLeft(Send(payload, 0)));
      && Accepts(net.left.st, payload) && Inv(next) && !Dropped(next)
      && Carries(next, |net.left.sent|) && next.out != []
      && next.left.sent == net.left.sent + [payload] && next.right == net.right && next.left.got == net.left.got
  {
    InflightIsRange(net.left);
    StepKeepsInv(net, OnLeft(Send(payload, 0)));
  }
}
