/**
 Whole messages over the lossy link: each end queues fragments, sends them as the window allows,
 and joins what its reliability layer delivers. Symmetric, like the protocol underneath.
 */
module LinkProtocol {
  import opened Bytes
  import opened LinkFrames
  import opened Reliability
  import opened Messages
  import Arq = ArqProtocol

  /** `queued` and `emitted` are the messages taken in and given out so far. */
  datatype End = End(queued: seq<bytes>, pending: seq<bytes>, partial: bytes, emitted: seq<bytes>)

  datatype Link = Link(net: Arq.Net, left: End, right: End)

  datatype Event = Queue(msg: bytes) | Pump(now: int) | Wire(ev: Arq.Event)

  datatype Act = OnLeft(ev: Event) | OnRight(ev: Event)

  function Flip(link: Link): Link {
    Link(Arq.Flip(link.net), link.right, link.left)
  }

  /** What the left end's layer delivers in a step. */
  ghost function Delivered(net: Arq.Net, ev: Arq.Event): seq<bytes> {
    if ev.Arrive? && net.back != [] then OnReceive(net.left.st, net.back[0].frame, ev.now).delivered else []
  }

  ghost function StepLeft(link: Link, ev: Event): Link {
    var end, st := link.left, link.net.left.st;
    match ev
    case Queue(msg) =>
      if |end.pending| < st.windowSize * 4 && |msg| <= MAX_MESSAGE_BYTES
      then link.(left := end.(queued := end.queued + [msg], pending := end.pending + Fragments(msg)))
      else link
    case Pump(now) =>
      if end.pending != [] && Accepts(st, end.pending[0])
      then link.(net := Arq.StepLeft(link.net, Arq.Send(end.pending[0], now)),
                 left := end.(pending := end.pending[1..]))
      else link
    case Wire(wire) =>
      if wire.Send? then link else
        var joined := Join(end.partial, Delivered(link.net, wire));
        link.(net := Arq.StepLeft(link.net, wire),
              left := end.(partial := joined.partial, emitted := end.emitted + joined.messages))
  }

  ghost function Step(link: Link, act: Act): Link {
    match act
    case OnLeft(ev) => StepLeft(link, ev)
    case OnRight(ev) => Flip(StepLeft(Flip(link), ev))
  }

  /** As in the protocol underneath: no carried ACK arrives more than 2^15 + 1 frames late. */
  predicate FreshLeft(link: Link, ev: Event) {
    ev.Wire? ==> Arq.FreshLeft(link.net, ev.ev)
  }

  predicate Fresh(link: Link, act: Act) {
    match act
    case OnLeft(ev) => FreshLeft(link, ev)
    case OnRight(ev) => FreshLeft(Flip(link), ev)
  }

  ghost function Exec(link: Link, acts: seq<Act>): Link
    decreases acts
  {
    if acts == [] then link else Exec(Step(link, acts[0]), acts[1..])
  }

  ghost predicate FreshRun(link: Link, acts: seq<Act>)
    decreases acts
  {
    acts == [] || (Fresh(link, acts[0]) && FreshRun(Step(link, acts[0]), acts[1..]))
  }

  // ---- Invariant ----

  /** Every fragment of the queued messages is accepted or pending, in order, and what the layer
      delivered has been joined. */
  ghost predicate EndOk(end: End, e: Arq.Endpoint) {
    && Sendable(end.queued)
    && AllFragments(end.queued) == e.sent + end.pending
    && Join([], e.got) == Joined(end.partial, end.emitted)
  }

  ghost predicate Inv(link: Link) {
    Arq.Inv(link.net) && EndOk(link.left, link.net.left) && EndOk(link.right, link.net.right)
  }

  predicate Dropped(link: Link) {
    Arq.Dropped(link.net)
  }

  lemma WireStep(net: Arq.Net, ev: Arq.Event)
    requires !ev.Send?
    ensures var next := Arq.StepLeft(net, ev);
      && next.left.sent == net.left.sent && next.left.got == net.left.got + Delivered(net, ev)
      && next.right == net.right
  {
  }

  lemma WireKeepsEnd(end: End, e: Arq.Endpoint, e': Arq.Endpoint, delivered: seq<bytes>)
    requires EndOk(end, e) && e'.sent == e.sent && e'.got == e.got + delivered
    ensures var joined := Join(end.partial, delivered);
      EndOk(end.(partial := joined.partial, emitted := end.emitted + joined.messages), e')
  {
    JoinConcat([], e.got, delivered);
  }

  lemma PumpKeepsEnd(end: End, e: Arq.Endpoint, now: int)
    requires EndOk(end, e) && end.pending != []
    ensures EndOk(end.(pending := end.pending[1..]), Arq.Sent(e, end.pending[0], now))
  {
    Reassociate(e.sent, [end.pending[0]], end.pending[1..]);
    assert [end.pending[0]] + end.pending[1..] == end.pending;
  }

  lemma QueueKeepsEnd(end: End, e: Arq.Endpoint, msg: bytes)
    requires EndOk(end, e) && |msg| <= MAX_MESSAGE_BYTES
    ensures EndOk(end.(queued := end.queued + [msg], pending := end.pending + Fragments(msg)), e)
  {
    AllFragmentsAppend(end.queued, msg);
    Reassociate(e.sent, end.pending, Fragments(msg));
  }

  lemma StepLeftKeepsInv(link: Link, ev: Event)
    requires Inv(link) && FreshLeft(link, ev) && !Dropped(StepLeft(link, ev))
    ensures Inv(StepLeft(link, ev))
  {
    var end, e := link.left, link.net.left;
    match ev
    case Queue(msg) =>
      if |msg| <= MAX_MESSAGE_BYTES { QueueKeepsEnd(end, e, msg); }
    case Pump(now) =>
      if end.pending != [] && Accepts(e.st, end.pending[0]) {
        PumpKeepsEnd(end, e, now);
        Arq.StepLeftKeepsInv(link.net, Arq.Send(end.pending[0], now));
      }
    case Wire(wire) =>
      if !wire.Send? {
        WireStep(link.net, wire);
        WireKeepsEnd(end, e, Arq.StepLeft(link.net, wire).left, Delivered(link.net, wire));
        Arq.StepLeftKeepsInv(link.net, wire);
      }
  }

  lemma StepKeepsInv(link: Link, act: Act)
    requires Inv(link) && Fresh(link, act) && !Dropped(Step(link, act))
    ensures Inv(Step(link, act))
  {
    match act
    case OnLeft(ev) => StepLeftKeepsInv(link, ev);
    case OnRight(ev) => StepLeftKeepsInv(Flip(link), ev);
  }

  lemma {:induction false} DroppedStays(link: Link, acts: seq<Act>)
    requires Dropped(link)
    ensures Dropped(Exec(link, acts))
    decreases acts
  {
    if acts != [] {
      DroppedStays(Step(link, acts[0]), acts[1..]);
    }
  }

  lemma {:induction false} RunKeepsInv(link: Link, acts: seq<Act>)
    requires Inv(link) && FreshRun(link, acts) && !Dropped(Exec(link, acts))
    ensures Inv(Exec(link, acts))
    decreases acts
  {
    if acts != [] {
      var next := Step(link, acts[0]);
      if Dropped(next) {
        DroppedStays(next, acts[1..]);
      }
      StepKeepsInv(link, acts[0]);
      RunKeepsInv(next, acts[1..]);
    }
  }

  // ---- Theorems ----

  function Start(rto: nat, window: nat, rto': nat, window': nat): Link {
    Link(Arq.Start(rto, window, rto', window'), End([], [], [], []), End([], [], [], []))
  }

  /** What the right end gave out is a prefix of what the left end took in, and all of it once
      every fragment has been accepted and delivered. */
  lemma EmittedIsPrefix(link: Link)
    requires Inv(link)
    ensures link.right.emitted <= link.left.queued
    ensures link.left.pending == [] && |link.net.right.got| == |link.net.left.sent| ==>
      link.right.emitted == link.left.queued && link.right.partial == []
  {
    var s, r := link.net.left, link.net.right;
    var frags := AllFragments(link.left.queued);
    assert s.sent <= frags;
    assert r.got <= frags by { assert r.got == s.sent[..|r.got|] == frags[..|r.got|]; }
    PrefixJoins(link.left.queued, r.got);
    if link.left.pending == [] && |r.got| == |s.sent| {
      assert r.got == frags;
      AllFragmentsJoin(link.left.queued);
    }
  }

  /** Over every run of two ends joined by channels that may lose any frame, with no frame dropped
      for its retries, each end emits exactly a prefix of the messages the other one queued. */
  lemma MessagesArriveInOrder(rto: nat, window: nat, rto': nat, window': nat, acts: seq<Act>)
    requires window < 0x8000 && window' < 0x8000
    requires FreshRun(Start(rto, window, rto', window'), acts)
    ensures var link := Exec(Start(rto, window, rto', window'), acts);
      !Dropped(link) ==>
        && link.right.emitted <= link.left.queued
        && link.left.emitted <= link.right.queued
  {
    var start := Start(rto, window, rto', window');
    assert Arq.Inv(start.net);
    assert Inv(start);
    if !Dropped(Exec(start, acts)) {
      RunKeepsInv(start, acts);
      EmittedIsPrefix(Exec(start, acts));
      EmittedIsPrefix(Flip(Exec(start, acts)));
    }
  }

  // ---- Messages in one direction ----

  ghost predicate OneWay(link: Link) {
    Arq.OneWay(link.net) && link.right.pending == []
  }

  predicate NoRightQueue(acts: seq<Act>) {
    forall i :: 0 <= i < |acts| ==> !(acts[i].OnRight? && acts[i].ev.Queue?)
  }

  lemma OneWayStep(link: Link, act: Act)
    requires Inv(link) && OneWay(link) && !(act.OnRight? && act.ev.Queue?)
    ensures Fresh(link, act) && OneWay(Step(link, act))
  {
    match act
    case OnLeft(Pump(now)) =>
      if link.left.pending != [] {
        Arq.OneWayStays(link.net, Arq.OnLeft(Arq.Send(link.left.pending[0], now)));
      }
    case OnLeft(Wire(wire)) =>
      Arq.OneWayIsFresh(link.net, Arq.OnLeft(wire));
      Arq.OneWayStays(link.net, Arq.OnLeft(wire));
    case OnRight(Wire(wire)) =>
      Arq.OneWayIsFresh(link.net, Arq.OnRight(wire));
      if !wire.Send? { Arq.OneWayStays(link.net, Arq.OnRight(wire)); }
    case _ =>
  }

  lemma {:induction false} OneWayNext(link: Link, acts: seq<Act>)
    requires Inv(link) && OneWay(link) && NoRightQueue(acts) && !Dropped(Exec(link, acts)) && acts != []
    ensures Fresh(link, acts[0]) && NoRightQueue(acts[1..])
    ensures Inv(Step(link, acts[0])) && OneWay(Step(link, acts[0]))
  {
    OneWayStep(link, acts[0]);
    if Dropped(Step(link, acts[0])) {
      DroppedStays(Step(link, acts[0]), acts[1..]);
    }
    StepKeepsInv(link, acts[0]);
  }

  lemma {:induction false} OneWayRun(link: Link, acts: seq<Act>)
    requires Inv(link) && OneWay(link) && NoRightQueue(acts) && !Dropped(Exec(link, acts))
    ensures FreshRun(link, acts) && OneWay(Exec(link, acts))
    decreases acts
  {
    if acts != [] {
      OneWayNext(link, acts);
      OneWayRun(Step(link, acts[0]), acts[1..]);
    }
  }

  /** With messages in one direction only, no assumption on the age of ACKs is needed. */
  lemma OneWayMessagesArriveInOrder(rto: nat, window: nat, rto': nat, window': nat, acts: seq<Act>)
    requires window < 0x8000 && window' < 0x8000
    requires NoRightQueue(acts)
    ensures var link := Exec(Start(rto, window, rto', window'), acts);
      !Dropped(link) ==> link.right.emitted <= link.left.queued
  {
    var start := Start(rto, window, rto', window');
    assert Arq.Inv(start.net);
    assert Inv(start) && OneWay(start);
    if !Dropped(Exec(start, acts)) {
      OneWayRun(start, acts);
      MessagesArriveInOrder(rto, window, rto', window', acts);
    }
  }
}
