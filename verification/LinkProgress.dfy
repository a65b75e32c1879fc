/** Every message queued can still arrive. */
module LinkProgress {
  import opened Bytes
  import opened LinkFrames
  import opened Reliability
  import opened Messages
  import opened LinkProtocol
  import Arq = ArqProtocol
  import Net = ArqProgress
  import ReceiveEffects

  /** A continuation that leads from `link` to `next`. */
  ghost predicate Way(link: Link, acts: seq<Act>, next: Link) {
    Exec(link, acts) == next && FreshRun(link, acts)
  }

  lemma {:induction false} WayConcat(link: Link, p: seq<Act>, mid: Link, q: seq<Act>, next: Link)
    requires Way(link, p, mid) && Way(mid, q, next)
    ensures Way(link, p + q, next)
    decreases p
  {
    if p == [] {
      assert p + q == q;
    } else {
      assert (p + q)[0] == p[0] && (p + q)[1..] == p[1..] + q;
      WayConcat(Step(link, p[0]), p[1..], mid, q, next);
    }
  }

  lemma WayOne(link: Link, act: Act)
    requires Fresh(link, act)
    ensures Way(link, [act], Step(link, act))
  {
    assert [act][1..] == [];
    assert Exec(Step(link, act), []) == Step(link, act) && FreshRun(Step(link, act), []);
  }

  function LiftOne(act: Arq.Act): Act {
    match act
    case OnLeft(ev) => OnLeft(Wire(ev))
    case OnRight(ev) => OnRight(Wire(ev))
  }

  function Lift(acts: seq<Arq.Act>): seq<Act> {
    if acts == [] then [] else [LiftOne(acts[0])] + Lift(acts[1..])
  }

  /** The ends have queued and hold back the same messages and fragments. */
  predicate SameQueues(link: Link, next: Link) {
    && next.left.queued == link.left.queued && next.left.pending == link.left.pending
    && next.right.queued == link.right.queued && next.right.pending == link.right.pending
  }

  lemma LiftStep(link: Link, act: Arq.Act)
    requires !act.ev.Send?
    ensures Step(link, LiftOne(act)).net == Arq.Step(link.net, act)
    ensures SameQueues(link, Step(link, LiftOne(act)))
    ensures Arq.Fresh(link.net, act) ==> Fresh(link, LiftOne(act))
  {
  }

  /** A continuation of the frames is one of the messages. */
  lemma {:induction false} LiftWay(link: Link, acts: seq<Arq.Act>, next: Arq.Net)
    requires Net.Way(link.net, acts, next)
    ensures var end := Exec(link, Lift(acts));
      Way(link, Lift(acts), end) && end.net == next && SameQueues(link, end)
    decreases acts
  {
    if acts != [] {
      LiftStep(link, acts[0]);
      LiftWay(Step(link, LiftOne(acts[0])), acts[1..], next);
      assert Lift(acts)[1..] == Lift(acts[1..]);
    }
  }

  lemma {:induction false} FragmentsFit(msgs: seq<bytes>)
    ensures forall i :: 0 <= i < |AllFragments(msgs)| ==> |AllFragments(msgs)[i]| <= MAX_PAYLOAD_SIZE
  {
    if msgs != [] {
      FragmentsFit(msgs[1..]);
    }
  }

  /** Pumping one pending fragment in a settled state. */
  lemma PumpOne(link: Link) returns (acts: seq<Act>, next: Link)
    requires Inv(link) && Net.Settled(link.net) && link.net.left.st.windowSize > 0 && link.left.pending != []
    ensures Way(link, acts, next) && Inv(next) && Net.Settled(next.net)
    ensures next.left.queued == link.left.queued && next.left.pending == link.left.pending[1..]
    ensures next.net.left.st.windowSize == link.net.left.st.windowSize
  {
    var payload, pump := link.left.pending[0], OnLeft(Pump(0));
    FirstFits(link);
    Net.SendFromSettled(link.net, payload);
    StepLeftKeepsInv(link, Pump(0));
    WayOne(link, pump);
    var pumped := Step(link, pump);
    var p, net := Net.DeliverAndAcknowledge(pumped.net, |link.net.left.sent|);
    LiftWay(pumped, p, net);
    next := Exec(pumped, Lift(p));
    RunKeepsInv(pumped, Lift(p));
    WayConcat(link, [pump], pumped, Lift(p), next);
    acts := [pump] + Lift(p);
    WindowStays(link, acts);
  }

  lemma FirstFits(link: Link)
    requires Inv(link) && link.left.pending != []
    ensures |link.left.pending[0]| <= MAX_PAYLOAD_SIZE
  {
    FragmentsFit(link.left.queued);
    assert AllFragments(link.left.queued)[|link.net.left.sent|] == link.left.pending[0];
  }

  lemma NetStepWindow(net: Arq.Net, ev: Arq.Event)
    ensures Arq.StepLeft(net, ev).left.st.windowSize == net.left.st.windowSize
    ensures Arq.StepLeft(net, ev).right == net.right
  {
    if ev.Arrive? && net.back != [] {
      ReceiveEffects.ReceiveKeepsWindow(net.left.st, net.back[0].frame, ev.now);
    }
  }

  lemma WindowStep(link: Link, act: Act)
    ensures Step(link, act).net.left.st.windowSize == link.net.left.st.windowSize
  {
    var from := if act.OnLeft? then link.net else Arq.Flip(link.net);
    match act.ev
    case Queue(_) =>
    case Pump(now) =>
      var pending := if act.OnLeft? then link.left.pending else link.right.pending;
      if pending != [] { NetStepWindow(from, Arq.Send(pending[0], now)); }
    case Wire(ev) => NetStepWindow(from, ev);
  }

  lemma {:induction false} WindowStays(link: Link, acts: seq<Act>)
    ensures Exec(link, acts).net.left.st.windowSize == link.net.left.st.windowSize
    decreases acts
  {
    if acts != [] {
      WindowStep(link, acts[0]);
      WindowStays(Step(link, acts[0]), acts[1..]);
    }
  }

  lemma {:induction false} PumpRest(link: Link) returns (acts: seq<Act>, next: Link)
    requires Inv(link) && Net.Settled(link.net) && link.net.left.st.windowSize > 0
    ensures Way(link, acts, next) && Inv(next) && Net.Settled(next.net)
    ensures next.left.queued == link.left.queued && next.left.pending == []
    decreases |link.left.pending|
  {
    if link.left.pending == [] {
      acts, next := [], link;
    } else {
      var p, mid := PumpOne(link);
      var q;
      q, next := PumpRest(mid);
      WayConcat(link, p, mid, q, next);
      acts := p + q;
    }
  }

  /** From such a state the right end can come to have emitted all that the left one has queued. */
  lemma CanEmitAll(link: Link) returns (acts: seq<Act>)
    requires Inv(link) && !Dropped(link) && link.net.left.st.windowSize > 0
    requires Arq.AttemptsLeft(link.net.left.st) && Net.InflightFresh(link.net)
    ensures FreshRun(link, acts)
    ensures var end := Exec(link, acts);
      !Dropped(end) && end.right.emitted == end.left.queued == link.left.queued
  {
    var p, net := Net.Settle(link.net);
    LiftWay(link, p, net);
    var settled := Exec(link, Lift(p));
    RunKeepsInv(link, Lift(p));
    WindowStays(link, Lift(p));
    var q, end := PumpRest(settled);
    WayConcat(link, Lift(p), settled, q, end);
    EmittedIsPrefix(end);
    acts := Lift(p) + q;
  }

  lemma StartInv(rto: nat, window: nat, rto': nat, window': nat)
    requires window < 0x8000 && window' < 0x8000
    ensures Inv(Start(rto, window, rto', window'))
  {
    Arq.StartInv(rto, window, rto', window');
  }

  lemma {:induction false} ExecConcat(link: Link, p: seq<Act>, q: seq<Act>)
    ensures Exec(link, p + q) == Exec(Exec(link, p), q)
    decreases p
  {
    if p == [] {
      assert p + q == q;
    } else {
      assert (p + q)[0] == p[0] && (p + q)[1..] == p[1..] + q;
      ExecConcat(Step(link, p[0]), p[1..], q);
    }
  }

  /** From every reachable state in which no frame has been dropped, the frames in flight have attempts
      left and the ACKs they carry are fresh, some continuation emits every message queued. */
  lemma MessagesNeverStuck(rto: nat, window: nat, rto': nat, window': nat, past: seq<Act>) returns (future: seq<Act>)
    requires 0 < window < 0x8000 && window' < 0x8000
    requires FreshRun(Start(rto, window, rto', window'), past)
    requires var link := Exec(Start(rto, window, rto', window'), past);
      !Dropped(link) && Arq.AttemptsLeft(link.net.left.st) && Net.InflightFresh(link.net)
    ensures var link, end := Exec(Start(rto, window, rto', window'), past),
                             Exec(Start(rto, window, rto', window'), past + future);
      !Dropped(end) && end.right.emitted == link.left.queued
  {
    var start := Start(rto, window, rto', window');
    StartInv(rto, window, rto', window');
    RunKeepsInv(start, past);
    WindowStays(start, past);
    future := CanEmitAll(Exec(start, past));
    ExecConcat(start, past, future);
  }

  /** With messages in one direction only, no ACK can be stale. */
  lemma OneWayMessagesNeverStuck(rto: nat, window: nat, rto': nat, window': nat, past: seq<Act>)
    returns (future: seq<Act>)
    requires 0 < window < 0x8000 && window' < 0x8000 && NoRightQueue(past)
    requires var link := Exec(Start(rto, window, rto', window'), past);
      !Dropped(link) && Arq.AttemptsLeft(link.net.left.st)
    ensures var link, end := Exec(Start(rto, window, rto', window'), past),
                             Exec(Start(rto, window, rto', window'), past + future);
      !Dropped(end) && end.right.emitted == link.left.queued
  {
    var start := Start(rto, window, rto', window');
    StartInv(rto, window, rto', window');
    assert OneWay(start);
    OneWayRun(start, past);
    RunKeepsInv(start, past);
    future := MessagesNeverStuck(rto, window, rto', window', past);
  }
}
