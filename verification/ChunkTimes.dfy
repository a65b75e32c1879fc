/** When a chunk is sent and sent again, in numbers. */
module ChunkTimes {
  import opened Bytes
  import opened Chunks
  import opened ChunkSending

  /** A call of the sender, or an acknowledgement. */
  datatype Event = Call(window: nat, resendAfter: nat, now: int, overdue: seq<u32>) | Ack(ids: seq<u32>, now: int)

  ghost predicate Possible(p: Progress, ev: Event) {
    ev.Call? ==> ListsOverdue(ev.overdue, p, ev.resendAfter, ev.now)
  }

  function After(m: Manifest, p: Progress, ev: Event): Progress {
    match ev
    case Call(window, _, now, overdue) => AfterSend(m, p, overdue, window, now)
    case Ack(ids, now) => AfterAck(m, p, ids, now)
  }

  /** The ids of the chunks a call returns. */
  function SentBy(m: Manifest, p: Progress, ev: Event): seq<u32> {
    if ev.Call? then ev.overdue + TakeNew(m.totalChunks, p.acked, |p.inflight|, ev.window, p.nextUnsent).0 else []
  }

  ghost predicate PossibleAll(m: Manifest, p: Progress, evs: seq<Event>)
    decreases evs
  {
    evs == [] || (Possible(p, evs[0]) && PossibleAll(m, After(m, p, evs[0]), evs[1..]))
  }

  function AfterAll(m: Manifest, p: Progress, evs: seq<Event>): Progress
    decreases evs
  {
    if evs == [] then p else AfterAll(m, After(m, p, evs[0]), evs[1..])
  }

  // ---- The clock of a chunk ----

  datatype Clock = Unsent | SentAt(t: int) | Acked

  function Tracked(m: Manifest, p: Progress, ev: Event, id: u32, c: Clock): Clock {
    if id in SentBy(m, p, ev) then SentAt(ev.now) else if ev.Ack? && id in ev.ids then Acked else c
  }

  function TrackedAll(m: Manifest, p: Progress, evs: seq<Event>, id: u32, c: Clock): Clock
    decreases evs
  {
    if evs == [] then c else TrackedAll(m, After(m, p, evs[0]), evs[1..], id, Tracked(m, p, evs[0], id, c))
  }

  ghost predicate Ticking(m: Manifest, p: Progress, id: u32, c: Clock) {
    && Accounted(m, p) && id < m.totalChunks
    && match c
       case Unsent => id !in p.inflight && id !in p.acked
       case SentAt(t) => id in p.inflight && p.inflight[id] == t
       case Acked => id in p.acked
  }

  lemma CallTicks(m: Manifest, p: Progress, ev: Event, id: u32, c: Clock)
    requires ev.Call? && Possible(p, ev) && Ticking(m, p, id, c)
    ensures Ticking(m, After(m, p, ev), id, Tracked(m, p, ev, id, c))
  {
    SendKeepsAccounted(m, p, ev.overdue, ev.window, ev.resendAfter, ev.now);
    TakenIds(m.totalChunks, p.acked, |p.inflight|, ev.window, p.nextUnsent);
  }

  lemma EventTicks(m: Manifest, p: Progress, ev: Event, id: u32, c: Clock)
    requires Possible(p, ev) && Ticking(m, p, id, c)
    ensures Ticking(m, After(m, p, ev), id, Tracked(m, p, ev, id, c))
  {
    match ev
    case Call(_, _, _, _) => CallTicks(m, p, ev, id, c);
    case Ack(ids, now) => AckKeepsAccounted(m, p, ids, now);
  }

  lemma {:induction false} RunTicks(m: Manifest, p: Progress, evs: seq<Event>, id: u32, c: Clock)
    requires PossibleAll(m, p, evs) && Ticking(m, p, id, c)
    ensures Ticking(m, AfterAll(m, p, evs), id, TrackedAll(m, p, evs, id, c))
    decreases evs
  {
    if evs != [] {
      EventTicks(m, p, evs[0], id, c);
      RunTicks(m, After(m, p, evs[0]), evs[1..], id, Tracked(m, p, evs[0], id, c));
    }
  }

  /** What a call makes of a chunk on the clock. */
  lemma CallOnClock(m: Manifest, p: Progress, ev: Event, id: u32, c: Clock)
    requires ev.Call? && Possible(p, ev) && Ticking(m, p, id, c)
    ensures c.SentAt? ==> (id in SentBy(m, p, ev) <==> (if ev.now > c.t then ev.now - c.t else 0) >= ev.resendAfter)
    ensures c.Acked? ==> id !in SentBy(m, p, ev)
  {
    TakenIds(m.totalChunks, p.acked, |p.inflight|, ev.window, p.nextUnsent);
  }

  /** Over any run of calls and acknowledgements: a chunk last sent at `t` and not acknowledged since is
      among those the next call returns exactly if `resendAfter` has passed since `t`; one that has been
      acknowledged, even before it was sent, never is. */
  lemma SentAgainIff(m: Manifest, evs: seq<Event>, next: Event, id: u32)
    requires id < m.totalChunks && PossibleAll(m, Beginning, evs)
    requires next.Call? && Possible(AfterAll(m, Beginning, evs), next)
    ensures var p, c := AfterAll(m, Beginning, evs), TrackedAll(m, Beginning, evs, id, Unsent);
      && (c.SentAt? ==>
            (id in SentBy(m, p, next) <==> (if next.now > c.t then next.now - c.t else 0) >= next.resendAfter))
      && (c.Acked? ==> id !in SentBy(m, p, next))
  {
    RunTicks(m, Beginning, evs, id, Unsent);
    CallOnClock(m, AfterAll(m, Beginning, evs), next, id, TrackedAll(m, Beginning, evs, id, Unsent));
  }

  /** Sent at or after `t`, or acknowledged. */
  predicate NotDueBefore(c: Clock, t: int) {
    c.Acked? || (c.SentAt? && c.t >= t)
  }

  lemma {:induction false} StaysNotDue(m: Manifest, p: Progress, evs: seq<Event>, id: u32, c: Clock, t: int)
    requires NotDueBefore(c, t) && forall i :: 0 <= i < |evs| ==> evs[i].now >= t
    ensures NotDueBefore(TrackedAll(m, p, evs, id, c), t)
    decreases evs
  {
    if evs != [] {
      assert forall i :: 0 <= i < |evs[1..]| ==> evs[1..][i] == evs[i + 1];
      StaysNotDue(m, After(m, p, evs[0]), evs[1..], id, Tracked(m, p, evs[0], id, c), t);
    }
  }

  /** A chunk one call returns is not returned by a second one that comes sooner than its `resendAfter`,
      whatever happens in between. */
  lemma CallsApart(m: Manifest, p: Progress, first: Event, evs: seq<Event>, second: Event, id: u32)
    requires Accounted(m, p) && first.Call? && Possible(p, first) && id in SentBy(m, p, first)
    requires PossibleAll(m, After(m, p, first), evs) && forall i :: 0 <= i < |evs| ==> evs[i].now >= first.now
    requires second.Call? && Possible(AfterAll(m, After(m, p, first), evs), second)
    requires second.now - first.now < second.resendAfter && second.resendAfter > 0
    ensures id !in SentBy(m, AfterAll(m, After(m, p, first), evs), second)
  {
    TakenIds(m.totalChunks, p.acked, |p.inflight|, first.window, p.nextUnsent);
    var before := if id in p.inflight then SentAt(p.inflight[id]) else Unsent;
    CallTicks(m, p, first, id, before);
    var c := SentAt(first.now);
    RunTicks(m, After(m, p, first), evs, id, c);
    StaysNotDue(m, After(m, p, first), evs, id, c, first.now);
    CallOnClock(m, AfterAll(m, After(m, p, first), evs), second, id, TrackedAll(m, After(m, p, first), evs, id, c));
  }

  // ---- Progress ----

  /** An acknowledgement that names some chunk for the first time, and no other, marks progress. */
  lemma {:induction false} ProgressMarkedIff(m: Manifest, p: Progress, ids: seq<u32>, now: int)
    ensures AfterAck(m, p, ids, now).lastProgress
         == if exists i :: 0 <= i < |ids| && ids[i] < m.totalChunks && ids[i] !in p.acked then now else p.lastProgress
    decreases ids
  {
    if ids != [] {
      var isNew := ids[0] < m.totalChunks && ids[0] !in p.acked;
      var q := p.(acked := if isNew then p.acked + {ids[0]} else p.acked,
                  inflight := p.inflight - {ids[0]}, lastProgress := if isNew then now else p.lastProgress);
      ProgressMarkedIff(m, q, ids[1..], now);
      assert forall i :: 0 <= i < |ids[1..]| ==> ids[1..][i] == ids[i + 1];
      if !isNew && exists i :: 0 <= i < |ids| && ids[i] < m.totalChunks && ids[i] !in p.acked {
        var i :| 0 <= i < |ids| && ids[i] < m.totalChunks && ids[i] !in p.acked;
        assert ids[1..][i - 1] == ids[i];
      }
    }
  }
}
