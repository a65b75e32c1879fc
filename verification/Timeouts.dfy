/** When a frame in flight is sent again, in numbers. */
module Timeouts {
  import opened Bytes
  import opened SeqRing
  import opened LinkFrames
  import opened Reliability
  import opened ReceiveEffects
  import opened Retries

  /** The peer asks for frame `k`: a NACK names it, or an ACK comes for the third time over while `k` is
      the smallest number in flight. */
  ghost predicate Asks(s: State, frame: Frame, k: u16) {
    || (frame.flags.Nack? && |frame.payload| >= 2 && U16FromBe(frame.payload[0], frame.payload[1]) == k)
    || (TakenAck(frame) == Some(s.lastAck) && s.dupAckCount >= 2
        && k in s.inflight && forall j :: j in s.inflight ==> k <= j)
  }

  /** From when on a frame is to be sent again, and how many attempts it has cost. */
  datatype Clock = Clock(due: int, attempts: nat)

  /** A frame sent again has `rto` to be answered; one asked for is due at once. */
  ghost function Tracked(s: State, ev: Event, k: u16, c: Clock): Clock
    requires Walks(s, ev)
  {
    if Count(Output(s, ev), k) > 0 then Clock(ev.now + s.rto, c.attempts + 1)
    else if ev.Receive? && Asks(s, ev.frame, k) then Clock(ev.now, c.attempts + 1)
    else c
  }

  ghost function TrackedAll(s: State, evs: seq<Event>, k: u16, c: Clock): Clock
    requires WalksAll(s, evs)
    decreases evs
  {
    if evs == [] then c else TrackedAll(After(s, evs[0]), evs[1..], k, Tracked(s, evs[0], k, c))
  }

  ghost predicate Ticking(s: State, k: u16, c: Clock) {
    k in s.inflight ==> s.inflight[k].sentAt + s.rto == c.due && s.inflight[k].retries == c.attempts
  }

  lemma AskedEntry(s: State, frame: Frame, now: int, k: u16)
    requires k in OnReceive(s, frame, now).state.inflight
    ensures k in s.inflight
    ensures OnReceive(s, frame, now).state.inflight[k]
         == if Asks(s, frame, k) then Hurry(s.inflight[k], now, s.rto) else s.inflight[k]
  {
    TableEffect(s, frame, now);
    if TakenAck(frame).Some? && s.inflight.Keys != {} {
      var m := MinKey(s.inflight.Keys);
      assert k in s.inflight && (forall j :: j in s.inflight ==> k <= j) <==> k == m;
    }
  }

  lemma ReceiptTicks(s: State, frame: Frame, now: int, k: u16, c: Clock)
    requires Ticking(s, k, c)
    ensures Ticking(OnReceive(s, frame, now).state, k, if Asks(s, frame, k) then Clock(now, c.attempts + 1) else c)
  {
    TableEffect(s, frame, now);
    if k in OnReceive(s, frame, now).state.inflight { AskedEntry(s, frame, now, k); }
  }

  lemma PollTicks(s: State, now: int, order: seq<u16>, k: u16, c: Clock)
    requires Filed(s) && Lists(order, s.inflight.Keys) && Ticking(s, k, c)
    ensures Ticking(AfterPoll(s, now), k,
                    if Count(Resent(s, now, order), k) > 0 then Clock(now + s.rto, c.attempts + 1) else c)
  {
    ResentCount(s, now, order, k);
  }

  lemma EventTicks(s: State, ev: Event, k: u16, c: Clock)
    requires Filed(s) && Walks(s, ev) && (Takes(s, ev) ==> s.sendSeq != k)
    requires Ticking(s, k, c)
    ensures Ticking(After(s, ev), k, Tracked(s, ev, k, c))
  {
    match ev
    case Accept(_, _) =>
    case Receive(frame, now) => ReceiptTicks(s, frame, now, k, c);
    case Tick(now, order) => PollTicks(s, now, order, k, c);
  }

  lemma {:induction false} RunTicks(s: State, evs: seq<Event>, k: u16, c: Clock)
    requires Filed(s) && WalksAll(s, evs) && NotReused(s, evs, k) && Ticking(s, k, c)
    ensures Filed(AfterAll(s, evs)) && AfterAll(s, evs).rto == s.rto
    ensures Ticking(AfterAll(s, evs), k, TrackedAll(s, evs, k, c))
    decreases evs
  {
    if evs != [] {
      EventKeepsFiled(s, evs[0]);
      EventTicks(s, evs[0], k, c);
      RunTicks(After(s, evs[0]), evs[1..], k, Tracked(s, evs[0], k, c));
    }
  }

  /** What a poll makes of a frame on the clock. */
  lemma PollOnClock(s: State, k: u16, c: Clock, now: int, order: seq<u16>)
    requires Filed(s) && Lists(order, s.inflight.Keys) && Ticking(s, k, c)
    ensures Count(Resent(s, now, order), k)
         == if k in s.inflight && (s.rto == 0 || now >= c.due) && c.attempts < 12 then 1 else 0
  {
    ResentCount(s, now, order, k);
  }

  /** Over any run since a payload was accepted at `t`: as long as its frame is in the table, the next
      poll sends it again exactly from the time on that is `rto` after it was last sent, or at which the
      peer last asked for it, and while it has cost fewer than 12 attempts. */
  lemma ResentIff(s: State, payload: bytes, t: int, evs: seq<Event>, now: int, order: seq<u16>)
    requires Filed(s) && WalksAll(AfterSend(s, payload, t), evs) && NotReused(AfterSend(s, payload, t), evs, s.sendSeq)
    requires Lists(order, AfterAll(AfterSend(s, payload, t), evs).inflight.Keys)
    ensures var start := AfterSend(s, payload, t);
      var end, c := AfterAll(start, evs), TrackedAll(start, evs, s.sendSeq, Clock(t + s.rto, 0));
      Count(Resent(end, now, order), s.sendSeq)
         == if s.sendSeq in end.inflight && (s.rto == 0 || now >= c.due) && c.attempts < 12 then 1 else 0
  {
    var start, c := AfterSend(s, payload, t), Clock(t + s.rto, 0);
    RunTicks(start, evs, s.sendSeq, c);
    PollOnClock(AfterAll(start, evs), s.sendSeq, TrackedAll(start, evs, s.sendSeq, c), now, order);
  }

  /** Nobody asks for frame `k`. */
  ghost predicate NotAsked(s: State, evs: seq<Event>, k: u16)
    decreases evs
  {
    evs == [] || ((evs[0].Receive? ==> !Asks(s, evs[0].frame, k)) && NotAsked(After(s, evs[0]), evs[1..], k))
  }

  predicate NotBefore(evs: seq<Event>, t: int) {
    forall i :: 0 <= i < |evs| ==> evs[i].now >= t
  }

  lemma {:induction false} DueAfter(s: State, evs: seq<Event>, k: u16, c: Clock, t: int)
    requires Filed(s) && WalksAll(s, evs) && NotAsked(s, evs, k) && NotBefore(evs, t) && c.due >= t + s.rto
    ensures TrackedAll(s, evs, k, c).due >= t + s.rto
    decreases evs
  {
    if evs != [] {
      EventKeepsFiled(s, evs[0]);
      assert NotBefore(evs[1..], t);
      DueAfter(After(s, evs[0]), evs[1..], k, Tracked(s, evs[0], k, c), t);
    }
  }

  /** Of two polls less than `rto` apart, whatever happens in between, at most one sends a frame again
      for which nobody asks. */
  lemma PollsApart(s: State, k: u16, t: int, first: seq<u16>, evs: seq<Event>, now: int, second: seq<u16>)
    requires Filed(s) && Lists(first, s.inflight.Keys) && t <= now < t + s.rto
    requires var p := AfterPoll(s, t);
      && WalksAll(p, evs) && NotReused(p, evs, k) && NotAsked(p, evs, k) && NotBefore(evs, t)
      && Lists(second, AfterAll(p, evs).inflight.Keys)
    ensures Count(Resent(s, t, first), k) + Count(Resent(AfterAll(AfterPoll(s, t), evs), now, second), k) <= 1
  {
    var p, n := AfterPoll(s, t), Count(Resent(s, t, first), k);
    ResentCount(s, t, first, k);
    EventKeepsFiled(s, Tick(t, first));
    RunFiled(p, evs);
    ResentCount(AfterAll(p, evs), now, second, k);
    if n == 1 {
      PollTicks(s, t, first, k, Clock(s.inflight[k].sentAt + s.rto, s.inflight[k].retries));
      NotYetAgain(p, k, t, Clock(t + s.rto, s.inflight[k].retries + 1), evs, now, second);
    }
  }

  lemma NotYetAgain(s: State, k: u16, t: int, c: Clock, evs: seq<Event>, now: int, order: seq<u16>)
    requires Filed(s) && Ticking(s, k, c) && c.due == t + s.rto && now < c.due && s.rto > 0
    requires WalksAll(s, evs) && NotReused(s, evs, k) && NotAsked(s, evs, k) && NotBefore(evs, t)
    requires Lists(order, AfterAll(s, evs).inflight.Keys)
    ensures Count(Resent(AfterAll(s, evs), now, order), k) == 0
  {
    RunTicks(s, evs, k, c);
    DueAfter(s, evs, k, c, t);
    PollOnClock(AfterAll(s, evs), k, TrackedAll(s, evs, k, c), now, order);
  }

  lemma {:induction false} RunFiled(s: State, evs: seq<Event>)
    requires Filed(s)
    ensures Filed(AfterAll(s, evs))
    decreases evs
  {
    if evs != [] {
      EventKeepsFiled(s, evs[0]);
      RunFiled(After(s, evs[0]), evs[1..]);
    }
  }

  // ---- Every third repetition ----

  /** Pure ACKs with the same number, one after another. */
  ghost function AfterAcks(s: State, ack: u16, times: seq<int>): State
    decreases times
  {
    if times == [] then s else AfterAcks(OnReceive(s, AckFrame(0, ack), times[0]).state, ack, times[1..])
  }

  /** The frame `k`, the numerically smallest of those in flight, is charged an attempt by every third
      repetition of an ACK that leaves them in flight; the others are not. */
  lemma {:induction false} EveryThirdRepetition(s: State, ack: u16, times: seq<int>, k: u16)
    requires s.lastAck == ack && s.dupAckCount < 3 && k in s.inflight
    requires forall j :: j in s.inflight ==> k <= j && !SeqLt(j, ack)
    ensures var t := AfterAcks(s, ack, times).inflight;
      && t.Keys == s.inflight.Keys
      && t[k].retries == s.inflight[k].retries + (s.dupAckCount + |times|) / 3
      && (forall j :: j in t && j != k ==> t[j] == s.inflight[j])
    decreases times
  {
    if times != [] {
      var next := OnReceive(s, AckFrame(0, ack), times[0]).state;
      assert MinKey(s.inflight.Keys) == k;
      assert next.inflight.Keys == s.inflight.Keys;
      EveryThirdRepetition(next, ack, times[1..], k);
    }
  }

  /** Counting starts with the first ACK of a number. */
  lemma RepetitionsCount(s: State, ack: u16, first: int, times: seq<int>, k: u16)
    requires ack != s.lastAck && k in s.inflight && !SeqLt(k, ack)
    requires forall j :: j in s.inflight && !SeqLt(j, ack) ==> k <= j
    ensures var t := AfterAcks(s, ack, [first] + times).inflight;
      && k in t && t[k].retries == s.inflight[k].retries + |times| / 3
      && (forall j :: j in t <==> j in s.inflight && !SeqLt(j, ack))
  {
    var next := OnReceive(s, AckFrame(0, ack), first).state;
    assert ([first] + times)[1..] == times;
    EveryThirdRepetition(next, ack, times, k);
  }
}
