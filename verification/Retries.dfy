/** How often frames are resent, and how they leave the in-flight table. */
module Retries {
  import opened Bytes
  import opened SeqRing
  import opened LinkFrames
  import opened Reliability
  import opened ReceiveEffects

  datatype Event = Accept(payload: bytes, now: int) | Receive(frame: Frame, now: int) | Tick(now: int, order: seq<u16>)

  ghost predicate Walks(s: State, ev: Event) {
    ev.Tick? ==> Lists(ev.order, s.inflight.Keys)
  }

  ghost function After(s: State, ev: Event): State {
    match ev
    case Accept(payload, now) => if Accepts(s, payload) then AfterSend(s, payload, now) else s
    case Receive(frame, now) => OnReceive(s, frame, now).state
    case Tick(now, _) => AfterPoll(s, now)
  }

  ghost function Output(s: State, ev: Event): seq<Frame>
    requires Walks(s, ev)
  {
    match ev
    case Tick(now, order) => Resent(s, now, order)
    case _ => []
  }

  /** The event takes a payload, under the number `s.sendSeq`. */
  ghost predicate Takes(s: State, ev: Event) {
    ev.Accept? && Accepts(s, ev.payload)
  }

  /** Number `k` is not handed out during the run. */
  ghost predicate NotReused(s: State, evs: seq<Event>, k: u16)
    decreases evs
  {
    evs == [] || ((Takes(s, evs[0]) ==> s.sendSeq != k) && NotReused(After(s, evs[0]), evs[1..], k))
  }

  /** How many payloads the run takes. */
  ghost function Taken(s: State, evs: seq<Event>): nat
    decreases evs
  {
    if evs == [] then 0 else (if Takes(s, evs[0]) then 1 else 0) + Taken(After(s, evs[0]), evs[1..])
  }

  ghost predicate WalksAll(s: State, evs: seq<Event>)
    decreases evs
  {
    evs == [] || (Walks(s, evs[0]) && WalksAll(After(s, evs[0]), evs[1..]))
  }

  ghost function AfterAll(s: State, evs: seq<Event>): State
    decreases evs
  {
    if evs == [] then s else AfterAll(After(s, evs[0]), evs[1..])
  }

  /** Every frame the polls of a run resend. */
  ghost function Outputs(s: State, evs: seq<Event>): seq<Frame>
    requires WalksAll(s, evs)
    decreases evs
  {
    if evs == [] then [] else Output(s, evs[0]) + Outputs(After(s, evs[0]), evs[1..])
  }

  function Count(frames: seq<Frame>, k: u16): nat {
    if frames == [] then 0 else (if frames[0].seqNo == k then 1 else 0) + Count(frames[1..], k)
  }

  lemma {:induction false} CountConcat(p: seq<Frame>, q: seq<Frame>, k: u16)
    ensures Count(p + q, k) == Count(p, k) + Count(q, k)
  {
    if p == [] {
      assert p + q == q;
    } else {
      assert (p + q)[1..] == p[1..] + q;
      CountConcat(p[1..], q, k);
    }
  }

  /** Entries are filed under their frame's sequence number. */
  ghost predicate Filed(s: State) {
    forall k :: k in s.inflight ==> s.inflight[k].frame.seqNo == k
  }

  /** The attempts a frame has left. */
  function Left(s: State, k: u16): nat {
    if k in s.inflight && s.inflight[k].retries < MAX_RETRIES then MAX_RETRIES - s.inflight[k].retries else 0
  }

  lemma {:induction false} ResentCount(s: State, now: int, order: seq<u16>, k: u16)
    requires Filed(s)
    requires forall i :: 0 <= i < |order| ==> order[i] in s.inflight
    requires forall i, j :: 0 <= i < j < |order| ==> order[i] != order[j]
    ensures Count(Resent(s, now, order), k)
         == if k in order && Resends(s.inflight[k], s.rto, now) then 1 else 0
  {
    if order != [] {
      var e := s.inflight[order[0]];
      var head := if Resends(e, s.rto, now) then [e.frame] else [];
      CountConcat(head, Resent(s, now, order[1..]), k);
      ResentCount(s, now, order[1..], k);
    }
  }

  lemma EventKeepsFiled(s: State, ev: Event)
    requires Filed(s)
    ensures Filed(After(s, ev)) && After(s, ev).rto == s.rto
  {
    if ev.Receive? {
      TableEffect(s, ev.frame, ev.now);
      forall k | k in After(s, ev).inflight ensures After(s, ev).inflight[k].frame.seqNo == k {
        ReceiveEntry(s, ev.frame, ev.now, k);
      }
    }
  }

  /** One event costs a frame as many attempts as it is resent, at least; only taking a payload gives
      attempts, to the new frame. */
  lemma EventCosts(s: State, ev: Event, k: u16)
    requires Filed(s) && Walks(s, ev)
    ensures Left(After(s, ev), k) + Count(Output(s, ev), k)
         <= Left(s, k) + if Takes(s, ev) && s.sendSeq == k then MAX_RETRIES else 0
  {
    match ev
    case Accept(_, _) =>
    case Receive(frame, now) =>
      if k in After(s, ev).inflight { ReceiveEntry(s, frame, now, k); }
    case Tick(now, order) => ResentCount(s, now, order, k);
  }

  /** Over any run of payloads taken, receipts and polls, a frame is resent at most as often as it has
      attempts left, until its number is handed out again. */
  lemma {:induction false} ResendsBounded(s: State, evs: seq<Event>, k: u16)
    requires Filed(s) && WalksAll(s, evs) && NotReused(s, evs, k)
    ensures Count(Outputs(s, evs), k) <= Left(s, k)
    decreases evs
  {
    if evs != [] {
      var t := After(s, evs[0]);
      EventKeepsFiled(s, evs[0]);
      EventCosts(s, evs[0], k);
      ResendsBounded(t, evs[1..], k);
      CountConcat(Output(s, evs[0]), Outputs(t, evs[1..]), k);
    }
  }

  /** A frame just accepted is resent at most MAX_RETRIES times in its life, which ends at the latest
      when its number is handed out again. */
  lemma NewFrameResendsBounded(s: State, payload: bytes, now: int, evs: seq<Event>)
    requires Filed(s) && WalksAll(AfterSend(s, payload, now), evs)
    requires NotReused(AfterSend(s, payload, now), evs, s.sendSeq)
    ensures Count(Outputs(AfterSend(s, payload, now), evs), s.sendSeq) <= MAX_RETRIES
  {
    ResendsBounded(AfterSend(s, payload, now), evs, s.sendSeq);
  }

  // ---- Asking for a frame ----

  /** The next poll after a NACK resends the frame it names, once, exactly while the frame has an
      attempt to spare beyond the one the NACK costs. */
  lemma NackedFrameResentIff(s: State, missing: u16, now: int, later: int, order: seq<u16>)
    requires Filed(s) && missing in s.inflight && now <= later
    requires Lists(order, s.inflight.Keys)
    ensures Count(Resent(HandleNack(s, missing, now), later, order), missing)
         == if s.inflight[missing].retries + 1 < MAX_RETRIES then 1 else 0
  {
    var t := HandleNack(s, missing, now);
    assert t.inflight.Keys == s.inflight.Keys;
    ResentCount(t, later, order, missing);
  }

  /** So does the poll after a third duplicate ACK with the numerically smallest frame in flight, if
      the ACK does not take it out. */
  lemma DuplicateAcksResendIff(s: State, ack: u16, now: int, later: int, order: seq<u16>)
    requires Filed(s) && s.inflight.Keys != {} && now <= later
    requires ack == s.lastAck && s.dupAckCount >= 2
    requires Lists(order, HandleAck(s, ack, now).inflight.Keys)
    ensures var k := MinKey(s.inflight.Keys);
      Count(Resent(HandleAck(s, ack, now), later, order), k)
         == if !SeqLt(k, ack) && s.inflight[k].retries + 1 < MAX_RETRIES then 1 else 0
  {
    ResentCount(HandleAck(s, ack, now), later, order, MinKey(s.inflight.Keys));
  }

  // ---- The whole table ----

  function Budget(s: State, n: nat): nat
    requires n <= 0x1_0000
  {
    if n == 0 then 0 else Budget(s, n - 1) + Left(s, n - 1)
  }

  function Total(frames: seq<Frame>, n: nat): nat
    requires n <= 0x1_0000
  {
    if n == 0 then 0 else Total(frames, n - 1) + Count(frames, n - 1)
  }

  lemma {:induction false} TotalCons(frames: seq<Frame>, n: nat)
    requires frames != [] && n <= 0x1_0000
    ensures Total(frames, n) == Total(frames[1..], n) + if frames[0].seqNo < n then 1 else 0
  {
    if n > 0 {
      TotalCons(frames, n - 1);
    }
  }

  lemma {:induction false} TotalNothing(n: nat)
    requires n <= 0x1_0000
    ensures Total([], n) == 0
  {
    if n > 0 { TotalNothing(n - 1); }
  }

  lemma {:induction false} TotalIsLength(frames: seq<Frame>)
    ensures Total(frames, 0x1_0000) == |frames|
  {
    if frames == [] {
      TotalNothing(0x1_0000);
    } else {
      TotalCons(frames, 0x1_0000);
      TotalIsLength(frames[1..]);
    }
  }

  lemma {:induction false} SumCosts(s: State, t: State, out: seq<Frame>, taken: Option<u16>, n: nat)
    requires n <= 0x1_0000
    requires forall k: u16 :: Left(t, k) + Count(out, k) <= Left(s, k) + if taken == Some(k) then MAX_RETRIES else 0
    ensures Budget(t, n) + Total(out, n)
         <= Budget(s, n) + if taken.Some? && taken.value < n then MAX_RETRIES else 0
  {
    if n > 0 {
      SumCosts(s, t, out, taken, n - 1);
      assert Left(t, n - 1) + Count(out, n - 1) <= Left(s, n - 1) + if taken == Some(n - 1) then MAX_RETRIES else 0;
    }
  }

  /** What one event costs the table as a whole. */
  lemma EventTotal(s: State, ev: Event)
    requires Filed(s) && Walks(s, ev)
    ensures Budget(After(s, ev), 0x1_0000) + |Output(s, ev)|
         <= Budget(s, 0x1_0000) + if Takes(s, ev) then MAX_RETRIES else 0
  {
    var taken := if Takes(s, ev) then Some(s.sendSeq) else None;
    forall k: u16 ensures Left(After(s, ev), k) + Count(Output(s, ev), k)
                       <= Left(s, k) + if taken == Some(k) then MAX_RETRIES else 0 {
      EventCosts(s, ev, k);
    }
    SumCosts(s, After(s, ev), Output(s, ev), taken, 0x1_0000);
    TotalIsLength(Output(s, ev));
  }

  /** Polling dries up: over any run all the polls together resend no more frames than the table has
      attempts left, and MAX_RETRIES for each payload taken during the run. */
  lemma {:induction false} PollingEnds(s: State, evs: seq<Event>)
    requires Filed(s) && WalksAll(s, evs)
    ensures |Outputs(s, evs)| <= Budget(s, 0x1_0000) + MAX_RETRIES * Taken(s, evs)
    decreases evs
  {
    if evs != [] {
      EventKeepsFiled(s, evs[0]);
      EventTotal(s, evs[0]);
      PollingEnds(After(s, evs[0]), evs[1..]);
    }
  }

  // ---- Leaving the table ----

  /** A frame leaves the table exactly on an ACK past it or by the poll that uses its last attempt up. */
  lemma LeavesIff(s: State, ev: Event, k: u16)
    requires k in s.inflight
    ensures k !in After(s, ev).inflight
       <==> (ev.Receive? && TakenAck(ev.frame).Some? && SeqLt(k, ev.frame.ack))
            || (ev.Tick? && Polled(s.inflight[k], s.rto, ev.now).retries >= MAX_RETRIES)
  {
    if ev.Receive? {
      TableEffect(s, ev.frame, ev.now);
      CountAckEntry(s, ev.frame.ack, ev.now, k);
    }
  }

  // ---- Giving up ----

  function PollAll(s: State, ticks: seq<int>): State
    decreases ticks
  {
    if ticks == [] then s else PollAll(AfterPoll(s, ticks[0]), ticks[1..])
  }

  predicate AllLive(s: State) {
    forall k :: k in s.inflight ==> s.inflight[k].retries < MAX_RETRIES
  }

  /** Timeouts alone never fail the link: the poll that spends a frame's last attempt also drops it,
      so no later poll finds it overdue. */
  lemma {:induction false} TimeoutsNeverFail(s: State, ticks: seq<int>)
    requires AllLive(s)
    ensures AllLive(PollAll(s, ticks)) && PollAll(s, ticks).failed == s.failed
    decreases ticks
  {
    if ticks != [] {
      TimeoutsNeverFail(AfterPoll(s, ticks[0]), ticks[1..]);
    }
  }

  /** The frame is a NACK that names an entry with one attempt left, or a third duplicate ACK while
      the numerically smallest entry, which the ACK leaves in the table, has one attempt left. */
  ghost predicate SpendsLast(s: State, frame: Frame) {
    || (frame.flags.Nack? && |frame.payload| >= 2
        && var k := U16FromBe(frame.payload[0], frame.payload[1]);
           k in s.inflight && s.inflight[k].retries == MAX_RETRIES - 1)
    || (TakenAck(frame) == Some(s.lastAck) && s.dupAckCount >= 2 && s.inflight.Keys != {}
        && var k := MinKey(s.inflight.Keys);
           !SeqLt(k, s.lastAck) && s.inflight[k].retries == MAX_RETRIES - 1)
  }

  lemma SpendsLastIff(s: State, frame: Frame, now: int)
    requires AllLive(s)
    ensures AllLive(OnReceive(s, frame, now).state) <==> !SpendsLast(s, frame)
  {
    TableEffect(s, frame, now);
    var t := OnReceive(s, frame, now).state;
    if frame.flags.Nack? && |frame.payload| >= 2 {
      var k := U16FromBe(frame.payload[0], frame.payload[1]);
      assert k in s.inflight ==> k in t.inflight;
    } else if TakenAck(frame) == Some(s.lastAck) && s.dupAckCount >= 2 && s.inflight.Keys != {} {
      var k := MinKey(s.inflight.Keys);
      assert !SeqLt(k, s.lastAck) ==> k in t.inflight && t.inflight[k].retries == s.inflight[k].retries + 1;
    }
  }

  /** Exactly such a frame makes the next poll fail a link whose entries all have attempts left. */
  lemma NextPollFailsIff(s: State, frame: Frame, now: int, later: int)
    requires AllLive(s) && now <= later
    ensures AfterPoll(OnReceive(s, frame, now).state, later).failed <==> s.failed || SpendsLast(s, frame)
  {
    TableEffect(s, frame, now);
    SpendsLastIff(s, frame, now);
    var t := OnReceive(s, frame, now).state;
    if !AllLive(t) {
      var k :| k in t.inflight && t.inflight[k].retries >= MAX_RETRIES;
      SpentIsDue(s, frame, now, k);
    }
  }

  /** An entry whose last attempt a received frame spends is due at once. */
  lemma SpentIsDue(s: State, frame: Frame, now: int, k: u16)
    requires AllLive(s)
    requires k in OnReceive(s, frame, now).state.inflight
    requires OnReceive(s, frame, now).state.inflight[k].retries >= MAX_RETRIES
    ensures OnReceive(s, frame, now).state.inflight[k].sentAt == now - s.rto
  {
    TableEffect(s, frame, now);
  }

  ghost predicate NeverSpendsLast(s: State, evs: seq<Event>)
    decreases evs
  {
    evs == [] || ((evs[0].Receive? ==> !SpendsLast(s, evs[0].frame)) && NeverSpendsLast(After(s, evs[0]), evs[1..]))
  }

  /** Over any run without such a frame, whatever is sent and lost, the link never fails. */
  lemma {:induction false} FailsOnlyAfterSpending(s: State, evs: seq<Event>)
    requires AllLive(s) && NeverSpendsLast(s, evs)
    ensures AllLive(AfterAll(s, evs)) && AfterAll(s, evs).failed == s.failed
    decreases evs
  {
    if evs != [] {
      if evs[0].Receive? {
        TableEffect(s, evs[0].frame, evs[0].now);
        SpendsLastIff(s, evs[0].frame, evs[0].now);
      }
      FailsOnlyAfterSpending(After(s, evs[0]), evs[1..]);
    }
  }

  /** The smallest such loss: one frame, no answer, twelve timeouts. The frame is gone from the
      table and the link does not count as failed. */
  lemma FrameDroppedSilently(payload: bytes)
    ensures var s := AfterSend(NewState(200, 8), payload, 0);
      var t := PollAll(s, [200, 400, 600, 800, 1000, 1200, 1400, 1600, 1800, 2000, 2200, 2400]);
      t.inflight == map[] && !t.failed
  {
    var s := AfterSend(NewState(200, 8), payload, 0);
    var f := SentFrame(NewState(200, 8), payload);
    assert s.inflight == map[0 := Entry(f, 0, 0)];
    DroppedAfter(s, f, 0, [200, 400, 600, 800, 1000, 1200, 1400, 1600, 1800, 2000, 2200, 2400]);
  }

  lemma {:induction false} DroppedAfter(s: State, f: Frame, r: nat, ticks: seq<int>)
    requires s.rto == 200 && r < MAX_RETRIES && |ticks| == MAX_RETRIES - r
    requires s.inflight == map[0 := Entry(f, 200 * r, r)] && !s.failed
    requires forall i :: 0 <= i < |ticks| ==> ticks[i] == 200 * (r + i + 1)
    ensures PollAll(s, ticks).inflight == map[] && !PollAll(s, ticks).failed
    decreases |ticks|
  {
    var t := AfterPoll(s, ticks[0]);
    if r + 1 == MAX_RETRIES {
      assert t.inflight == map[];
      assert PollAll(t, ticks[1..]) == t;
    } else {
      assert t.inflight == map[0 := Entry(f, 200 * (r + 1), r + 1)];
      DroppedAfter(t, f, r + 1, ticks[1..]);
    }
  }
}
