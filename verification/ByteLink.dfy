/**
 Two link tasks joined by byte pipes: what each writes is the encodings of its frames, one after the
 other, and the other reads it in pieces of any size. Noise on the line may change any bytes that are
 on their way; the frames that still decode afterwards are those that did before, but for at most one.
 Every step is a run of steps of the protocol on frames.
 */
module ByteLink {
  import opened Bytes
  import opened LinkFrames
  import opened FrameCodec
  import opened Reliability
  import opened Messages
  import opened SerialLink
  import B = ByteStream
  import Arq = ArqProtocol
  import LP = LinkProtocol
  import ReceiveEffects

  /** `lost` says whether a poll has dropped a frame from the table. */
  datatype End = End(task: Task, queued: seq<bytes>, emitted: seq<bytes>, lost: bool)

  datatype Net = Net(left: End, right: End, out: bytes, back: bytes)

  datatype Event =
    | Queue(msg: bytes)
    | Pump(now: int)
    | Raw(n: nat, now: int, order: seq<u16>)
    | Tick(now: int, order: seq<u16>)
    | Noise(i: nat, wire: bytes)

  datatype Act = OnLeft(ev: Event) | OnRight(ev: Event)

  function Flip(net: Net): Net {
    Net(net.right, net.left, net.back, net.out)
  }

  function Written(frames: seq<Frame>): bytes {
    if B.AllEncodable(frames) then B.Stream(frames) else []
  }

  /** The frames on their way to a reader that has `rx` in its buffer. */
  function InFlight(rx: bytes, wire: bytes): seq<Frame> {
    B.DecodeAll(B.Segments(rx + wire).0)
  }

  /** What is on its way ends with a delimiter and has no over-long stretch without one. */
  ghost predicate Clean(rx: bytes, wire: bytes) {
    0 !in rx && B.ShortRuns(rx + wire) && B.Segments(rx + wire).1 == []
  }

  function Without(s: seq<Frame>, i: nat): seq<Frame> {
    if i < |s| then s[..i] + s[i + 1..] else s
  }

  ghost predicate NoiseAt(rx: bytes, wire: bytes, i: nat, wire': bytes) {
    Clean(rx, wire') && InFlight(rx, wire') == Without(InFlight(rx, wire), i)
  }

  predicate Drops(s: State, now: int) {
    AfterPoll(s, now).inflight.Keys != s.inflight.Keys
  }

  /** The left end after a read. */
  ghost function ReadEnd(left: End, raw: bytes, now: int, order: seq<u16>): End
    requires Walks(Heard(left.task, raw, now).state, order)
  {
    var o := Read(left.task, raw, now, order);
    left.(task := o.task, emitted := left.emitted + o.messages,
          lost := left.lost || Drops(Heard(left.task, raw, now).state, now))
  }

  ghost predicate CanRead(net: Net, n: nat, now: int, order: seq<u16>) {
    n <= |net.back| && Walks(Heard(net.left.task, net.back[..n], now).state, order)
  }

  ghost function OnRaw(net: Net, n: nat, now: int, order: seq<u16>): Net
    requires CanRead(net, n, now, order)
  {
    Net(ReadEnd(net.left, net.back[..n], now, order), net.right,
        net.out + Written(Read(net.left.task, net.back[..n], now, order).frames), net.back[n..])
  }

  ghost function OnTick(net: Net, now: int, order: seq<u16>): Net
    requires Walks(net.left.task.st, order)
  {
    var end, o := net.left, Ticked(net.left.task, now, order);
    net.(left := end.(task := o.task, lost := end.lost || Drops(end.task.st, now)), out := net.out + Written(o.frames))
  }

  function OnPump(net: Net, now: int): Net {
    var o := Pumped(net.left.task, now);
    net.(left := net.left.(task := o.task), out := net.out + Written(o.frames))
  }

  function OnQueue(net: Net, msg: bytes): Net {
    var end, t := net.left, net.left.task;
    if |msg| <= MAX_MESSAGE_BYTES && |t.pending| < t.window * 4
    then net.(left := end.(task := Queued(t, msg), queued := end.queued + [msg]))
    else net
  }

  /** A step of the left end; noise is on the line towards it. */
  ghost function StepLeft(net: Net, ev: Event): Net {
    match ev
    case Queue(msg) => OnQueue(net, msg)
    case Pump(now) => OnPump(net, now)
    case Raw(n, now, order) => if CanRead(net, n, now, order) then OnRaw(net, n, now, order) else net
    case Tick(now, order) => if Walks(net.left.task.st, order) then OnTick(net, now, order) else net
    case Noise(i, wire) => if NoiseAt(net.left.task.rx, net.back, i, wire) then net.(back := wire) else net
  }

  ghost function Step(net: Net, act: Act): Net {
    match act
    case OnLeft(ev) => StepLeft(net, ev)
    case OnRight(ev) => Flip(StepLeft(Flip(net), ev))
  }

  ghost function Exec(net: Net, acts: seq<Act>): Net
    decreases acts
  {
    if acts == [] then net else Exec(Step(net, acts[0]), acts[1..])
  }

  function NewEnd(rto: nat, window: nat): End {
    End(Task(NewState(rto, window), window, [], [], []), [], [], false)
  }

  function Start(rto: nat, window: nat, rto': nat, window': nat): Net {
    Net(NewEnd(rto, window), NewEnd(rto', window'), [], [])
  }

  // ---- Bytes on their way ----

  /** A stream that ends with a delimiter can be continued. */
  lemma CleanAppend(s: bytes, q: bytes)
    requires B.ShortRuns(s) && B.Segments(s).1 == [] && B.ShortRuns(q)
    ensures B.ShortRuns(s + q)
  {
    EndsWithZero(s);
    var t := s + q;
    forall i: nat | i + B.GARBAGE_LIMIT < |t| ensures B.ZeroWithin(t, i) {
      if i + B.GARBAGE_LIMIT < |s| {
        assert B.ZeroWithin(s, i);
        var k :| i <= k <= i + B.GARBAGE_LIMIT && s[k] == 0;
        assert t[k] == 0;
      } else if i < |s| {
        assert t[|s| - 1] == 0;
      } else {
        assert B.ZeroWithin(q, i - |s|);
        var k :| i - |s| <= k <= i - |s| + B.GARBAGE_LIMIT && q[k] == 0;
        assert t[k + |s|] == 0;
      }
    }
  }

  lemma {:induction false} EndsWithZero(s: bytes)
    requires B.Segments(s).1 == []
    ensures s == [] || s[|s| - 1] == 0
    decreases |s|
  {
    if 0 in s {
      EndsWithZero(s[B.FirstZero(s) + 1..]);
    }
  }

  /** Writing frames puts them behind what is on its way. */
  lemma WrittenAppends(rx: bytes, wire: bytes, frames: seq<Frame>)
    requires Clean(rx, wire) && B.AllEncodable(frames)
    ensures Clean(rx, wire + B.Stream(frames))
    ensures InFlight(rx, wire + B.Stream(frames)) == InFlight(rx, wire) + frames
  {
    var s, q := rx + wire, B.Stream(frames);
    Reassociate(rx, wire, q);
    B.StreamSegments(frames);
    B.StuffedAllDecodes(frames);
    CleanAppend(s, q);
    B.SegmentsResume(s, q);
    assert [] + q == q;
    B.DecodeAllConcat(B.Segments(s).0, B.StuffedAll(frames));
  }

  /** Reading some of the bytes takes the frames they complete off the line, and no others. */
  lemma ReadSplits(rx: bytes, wire: bytes, n: nat)
    requires Clean(rx, wire) && n <= |wire|
    ensures var (segments, kept) := B.Feed(rx, wire[..n]);
      && Clean(kept, wire[n..])
      && InFlight(rx, wire) == B.DecodeAll(segments) + InFlight(kept, wire[n..])
  {
    var s, more := rx + wire[..n], wire[n..];
    assert rx + wire == s + more;
    if |s| > B.GARBAGE_LIMIT {
      B.LongHasZero(s, more);
    }
    B.SegmentsResume(s, more);
    B.KeptShort(s, more);
    B.DecodeAllConcat(B.Segments(s).0, B.Segments(B.Segments(s).1 + more).0);
  }

  // ---- Frames that can be encoded ----

  ghost predicate Small(s: State) {
    forall k :: k in s.inflight ==> Encodable(s.inflight[k].frame)
  }

  lemma HearingKeepsSmall(s: State, frame: Frame, now: int)
    requires Small(s)
    ensures Small(OnReceive(s, frame, now).state) && B.AllEncodable(OnReceive(s, frame, now).responses)
  {
    var t := OnReceive(s, frame, now).state;
    forall k | k in t.inflight ensures Encodable(t.inflight[k].frame) {
      ReceiveEffects.ReceiveEntry(s, frame, now, k);
    }
    ResponsesSmall(s, frame, now);
  }

  lemma ResponsesSmall(s: State, frame: Frame, now: int)
    ensures B.AllEncodable(OnReceive(s, frame, now).responses)
  {
  }

  lemma {:induction false} HearingAllKeepsSmall(s: State, frames: seq<Frame>, now: int)
    requires Small(s)
    ensures Small(ReceiveFrames(s, frames, now).state) && B.AllEncodable(ReceiveFrames(s, frames, now).responses)
    decreases frames
  {
    if frames != [] {
      HearingKeepsSmall(s, frames[0], now);
      HearingAllKeepsSmall(OnReceive(s, frames[0], now).state, frames[1..], now);
    }
  }

  lemma {:induction false} ResentSmall(s: State, now: int, order: seq<u16>)
    requires Small(s) && forall i :: 0 <= i < |order| ==> order[i] in s.inflight
    ensures B.AllEncodable(Resent(s, now, order))
  {
    if order != [] {
      ResentSmall(s, now, order[1..]);
    }
  }

  lemma PollKeepsSmall(s: State, now: int)
    requires Small(s)
    ensures Small(AfterPoll(s, now))
  {
  }

  lemma {:induction false} PumpKeepsSmall(s: State, pending: seq<bytes>, now: int)
    requires Small(s)
    ensures Small(PumpAll(s, pending, now).0) && B.AllEncodable(PumpAll(s, pending, now).2)
    decreases pending
  {
    if pending != [] && Accepts(s, pending[0]) {
      PumpKeepsSmall(AfterSend(s, pending[0], now), pending[1..], now);
    }
  }

  // ---- Simulation ----

  function Frames(packets: seq<Arq.Packet>): seq<Frame> {
    if packets == [] then [] else [packets[0].frame] + Frames(packets[1..])
  }

  lemma {:induction false} FramesConcat(p: seq<Arq.Packet>, q: seq<Arq.Packet>)
    ensures Frames(p + q) == Frames(p) + Frames(q)
  {
    if p == [] {
      assert p + q == q;
    } else {
      assert (p + q)[0] == p[0] && (p + q)[1..] == p[1..] + q;
      FramesConcat(p[1..], q);
    }
  }

  lemma {:induction false} FramesOf(packets: seq<Arq.Packet>, frames: seq<Frame>)
    requires |packets| == |frames| && forall i :: 0 <= i < |frames| ==> packets[i].frame == frames[i]
    ensures Frames(packets) == frames
  {
    if packets != [] {
      FramesOf(packets[1..], frames[1..]);
    }
  }

  lemma {:induction false} FramesLength(packets: seq<Arq.Packet>)
    ensures |Frames(packets)| == |packets|
  {
    if packets != [] {
      FramesLength(packets[1..]);
    }
  }

  lemma FramesWithout(packets: seq<Arq.Packet>, i: nat)
    requires i < |packets|
    ensures Frames(packets[..i] + packets[i + 1..]) == Without(Frames(packets), i)
  {
    var p, x, q := packets[..i], packets[i], packets[i + 1..];
    SplitAtIndex(packets, i);
    FramesConcat(p + [x], q);
    FramesConcat(p, [x]);
    FramesOf([x], [x.frame]);
    FramesConcat(p, q);
    FramesLength(p);
    WithoutMiddle(Frames(p), x.frame, Frames(q));
  }

  lemma WithoutMiddle(p: seq<Frame>, f: Frame, q: seq<Frame>)
    ensures Without(p + [f] + q, |p|) == p + q
  {
  }

  ghost predicate SameEnd(b: End, end: LP.End, e: Arq.Endpoint) {
    && b.task.st == e.st && b.task.window == e.st.windowSize && b.lost == e.lost
    && end == LP.End(b.queued, b.task.pending, b.task.partial, b.emitted)
    && Small(e.st)
  }

  ghost predicate SameLine(rx: bytes, wire: bytes, packets: seq<Arq.Packet>) {
    Clean(rx, wire) && Frames(packets) == InFlight(rx, wire)
  }

  ghost predicate Sim(net: Net, link: LP.Link) {
    && SameEnd(net.left, link.left, link.net.left) && SameEnd(net.right, link.right, link.net.right)
    && SameLine(net.right.task.rx, net.out, link.net.out) && SameLine(net.left.task.rx, net.back, link.net.back)
  }

  /** Steps of the left end only, none of which queues a message. */
  predicate Quiet(acts: seq<LP.Act>) {
    forall i :: 0 <= i < |acts| ==> acts[i].OnLeft? && !acts[i].ev.Queue?
  }

  // What the left end does in several steps of the protocol.

  lemma {:induction false} PumpRun(link: LP.Link, now: int) returns (acts: seq<LP.Act>, packets: seq<Arq.Packet>)
    ensures Quiet(acts)
    ensures var (st, pending, frames) := PumpAll(link.net.left.st, link.left.pending, now);
      var end := LP.Exec(link, acts);
      && Frames(packets) == frames
      && end.left == link.left.(pending := pending) && end.right == link.right
      && end.net == Arq.Net(end.net.left, link.net.right, link.net.out + packets, link.net.back)
      && end.net.left.st == st && end.net.left.lost == link.net.left.lost
    decreases |link.left.pending|
  {
    var st := link.net.left.st;
    if link.left.pending == [] || !Accepts(st, link.left.pending[0]) {
      acts, packets := [], [];
      assert link.net.out + [] == link.net.out;
    } else {
      var act := LP.OnLeft(LP.Pump(now));
      var next := LP.Step(link, act);
      var first := Arq.Packet(SentFrame(st, link.left.pending[0]), |link.net.left.sent|, |link.net.left.got|);
      var rest, more := PumpRun(next, now);
      acts, packets := [act] + rest, [first] + more;
      assert acts[1..] == rest && packets[1..] == more;
      Reassociate(link.net.out, [first], more);
    }
  }

  /** The arrival of as many frames as there are in `frames`, which head the channel. */
  lemma {:induction false} ArriveRun(link: LP.Link, frames: seq<Frame>, rest: seq<Frame>, now: int)
    returns (acts: seq<LP.Act>, packets: seq<Arq.Packet>)
    requires Frames(link.net.back) == frames + rest
    ensures Quiet(acts)
    ensures var r := ReceiveFrames(link.net.left.st, frames, now);
      var joined := Join(link.left.partial, r.delivered);
      var end := LP.Exec(link, acts);
      && Frames(packets) == r.responses && Frames(end.net.back) == rest
      && end.left == link.left.(partial := joined.partial, emitted := link.left.emitted + joined.messages)
      && end.right == link.right
      && end.net == Arq.Net(end.net.left, link.net.right, link.net.out + packets, end.net.back)
      && end.net.left.st == r.state && end.net.left.lost == link.net.left.lost
    decreases frames
  {
    if frames == [] {
      acts, packets := [], [];
      assert link.net.out + [] == link.net.out && link.left.emitted + [] == link.left.emitted;
      assert frames + rest == rest;
    } else {
      var act := LP.OnLeft(LP.Wire(Arq.Arrive(now)));
      var first := ArriveStep(link, now);
      HeadFrame(link.net.back, frames, rest);
      var later, more := ArriveRun(LP.Step(link, act), frames[1..], rest, now);
      acts, packets := [act] + later, first + more;
      assert acts[1..] == later;
      FramesConcat(first, more);
      Reassociate(link.net.out, first, more);
      var one := OnReceive(link.net.left.st, frames[0], now);
      JoinTwice(link.left.partial, link.left.emitted, one.delivered,
                ReceiveFrames(one.state, frames[1..], now).delivered);
    }
  }

  lemma {:induction false} HeadFrame(packets: seq<Arq.Packet>, frames: seq<Frame>, rest: seq<Frame>)
    requires Frames(packets) == frames + rest && frames != []
    ensures packets != [] && packets[0].frame == frames[0] && Frames(packets[1..]) == frames[1..] + rest
  {
    assert (frames + rest)[0] == frames[0] && (frames + rest)[1..] == frames[1..] + rest;
  }

  lemma JoinTwice(partial: bytes, emitted: seq<bytes>, p: seq<bytes>, q: seq<bytes>)
    ensures var first := Join(partial, p);
      var second, both := Join(first.partial, q), Join(partial, p + q);
      both.partial == second.partial && emitted + first.messages + second.messages == emitted + both.messages
  {
    JoinConcat(partial, p, q);
    Reassociate(emitted, Join(partial, p).messages, Join(Join(partial, p).partial, q).messages);
  }

  lemma ArriveStep(link: LP.Link, now: int) returns (packets: seq<Arq.Packet>)
    requires link.net.back != []
    ensures var next := LP.Step(link, LP.OnLeft(LP.Wire(Arq.Arrive(now))));
      var r := OnReceive(link.net.left.st, link.net.back[0].frame, now);
      var joined := Join(link.left.partial, r.delivered);
      && Frames(packets) == r.responses
      && next.left == link.left.(partial := joined.partial, emitted := link.left.emitted + joined.messages)
      && next.right == link.right
      && next.net == Arq.Net(next.net.left, link.net.right, link.net.out + packets, link.net.back[1..])
      && next.net.left.st == r.state && next.net.left.lost == link.net.left.lost
  {
    var r := OnReceive(link.net.left.st, link.net.back[0].frame, now);
    packets := Arq.Responses(r.responses, |link.net.left.got + r.delivered|);
    FramesOf(packets, r.responses);
  }

  lemma PollStep(link: LP.Link, now: int, order: seq<u16>) returns (packets: seq<Arq.Packet>)
    requires Lists(order, link.net.left.st.inflight.Keys)
    ensures var next := LP.Step(link, LP.OnLeft(LP.Wire(Arq.Poll(now, order))));
      var st := link.net.left.st;
      && Frames(packets) == Resent(st, now, order)
      && next.left == link.left && next.right == link.right
      && next.net == Arq.Net(next.net.left, link.net.right, link.net.out + packets, link.net.back)
      && next.net.left.st == AfterPoll(st, now) && next.net.left.lost == (link.net.left.lost || Drops(st, now))
  {
    var e := link.net.left;
    packets := Arq.Retransmits(e, Resent(e.st, now, order));
    FramesOf(packets, Resent(e.st, now, order));
    assert Join(link.left.partial, []).messages == [] && link.left.emitted + [] == link.left.emitted;
  }

  // One step of the left end.

  lemma {:induction false} ExecConcat(link: LP.Link, p: seq<LP.Act>, q: seq<LP.Act>)
    ensures LP.Exec(link, p + q) == LP.Exec(LP.Exec(link, p), q)
    decreases p
  {
    if p == [] {
      assert p + q == q;
    } else {
      assert (p + q)[0] == p[0] && (p + q)[1..] == p[1..] + q;
      ExecConcat(LP.Step(link, p[0]), p[1..], q);
    }
  }

  lemma ExecOne(link: LP.Link, act: LP.Act)
    ensures LP.Exec(link, [act]) == LP.Step(link, act)
  {
    assert [act][1..] == [];
    assert LP.Exec(LP.Step(link, act), []) == LP.Step(link, act);
  }

  /** Writing frames on both lines alike. */
  lemma WriteLine(rx: bytes, wire: bytes, packets: seq<Arq.Packet>, frames: seq<Frame>, more: seq<Arq.Packet>)
    requires SameLine(rx, wire, packets) && B.AllEncodable(frames) && Frames(more) == frames
    ensures SameLine(rx, wire + Written(frames), packets + more)
  {
    WrittenAppends(rx, wire, frames);
    FramesConcat(packets, more);
  }

  lemma PumpSim(net: Net, link: LP.Link, now: int) returns (acts: seq<LP.Act>)
    requires Sim(net, link)
    ensures Quiet(acts) && Sim(OnPump(net, now), LP.Exec(link, acts))
  {
    var t := net.left.task;
    var packets;
    acts, packets := PumpRun(link, now);
    PumpKeepsSmall(t.st, t.pending, now);
    PumpKeepsWindow(t.st, t.pending, now);
    WriteLine(net.right.task.rx, net.out, link.net.out, PumpAll(t.st, t.pending, now).2, packets);
  }

  lemma {:induction false} PumpKeepsWindow(s: State, pending: seq<bytes>, now: int)
    ensures PumpAll(s, pending, now).0.windowSize == s.windowSize
    decreases pending
  {
    if pending != [] && Accepts(s, pending[0]) {
      PumpKeepsWindow(AfterSend(s, pending[0], now), pending[1..], now);
    }
  }

  lemma {:induction false} HearingKeepsWindow(s: State, frames: seq<Frame>, now: int)
    ensures ReceiveFrames(s, frames, now).state.windowSize == s.windowSize
    decreases frames
  {
    if frames != [] {
      ReceiveEffects.ReceiveKeepsWindow(s, frames[0], now);
      HearingKeepsWindow(OnReceive(s, frames[0], now).state, frames[1..], now);
    }
  }

  lemma TickSim(net: Net, link: LP.Link, now: int, order: seq<u16>) returns (acts: seq<LP.Act>)
    requires Sim(net, link) && Walks(net.left.task.st, order)
    ensures Quiet(acts) && Sim(OnTick(net, now, order), LP.Exec(link, acts))
  {
    var st, act := net.left.task.st, LP.OnLeft(LP.Wire(Arq.Poll(now, order)));
    var packets := PollStep(link, now, order);
    acts := [act];
    ExecOne(link, act);
    ResentSmall(st, now, order);
    PollKeepsSmall(st, now);
    WriteLine(net.right.task.rx, net.out, link.net.out, Resent(st, now, order), packets);
  }

  /** The protocol's steps for one read: the frames that head the channel arrive, then a poll. */
  lemma RawRun(link: LP.Link, frames: seq<Frame>, rest: seq<Frame>, now: int, order: seq<u16>)
    returns (acts: seq<LP.Act>, packets: seq<Arq.Packet>)
    requires Frames(link.net.back) == frames + rest
    requires Walks(ReceiveFrames(link.net.left.st, frames, now).state, order)
    ensures Quiet(acts)
    ensures var r := ReceiveFrames(link.net.left.st, frames, now);
      var joined := Join(link.left.partial, r.delivered);
      var end := LP.Exec(link, acts);
      && Frames(packets) == r.responses + Resent(r.state, now, order) && Frames(end.net.back) == rest
      && end.left == link.left.(partial := joined.partial, emitted := link.left.emitted + joined.messages)
      && end.right == link.right
      && end.net == Arq.Net(end.net.left, link.net.right, link.net.out + packets, end.net.back)
      && end.net.left.st == AfterPoll(r.state, now)
      && end.net.left.lost == (link.net.left.lost || Drops(r.state, now))
  {
    var p, heard := ArriveRun(link, frames, rest, now);
    var mid := LP.Exec(link, p);
    var poll := LP.OnLeft(LP.Wire(Arq.Poll(now, order)));
    var resent := PollStep(mid, now, order);
    ExecOne(mid, poll);
    ExecConcat(link, p, [poll]);
    FramesConcat(heard, resent);
    Reassociate(link.net.out, heard, resent);
    acts, packets := p + [poll], heard + resent;
  }

  /** What a read writes can be encoded, and leaves the table so. */
  lemma ReadKeepsSmall(s: State, frames: seq<Frame>, now: int, order: seq<u16>)
    requires Small(s) && Walks(ReceiveFrames(s, frames, now).state, order)
    ensures var r := ReceiveFrames(s, frames, now);
      && B.AllEncodable(r.responses + Resent(r.state, now, order))
      && Small(AfterPoll(r.state, now)) && AfterPoll(r.state, now).windowSize == s.windowSize
  {
    var r := ReceiveFrames(s, frames, now);
    HearingAllKeepsSmall(s, frames, now);
    HearingKeepsWindow(s, frames, now);
    ResentSmall(r.state, now, order);
    PollKeepsSmall(r.state, now);
  }

  lemma ReadEndSame(left: End, link: LP.Link, end: LP.Link, raw: bytes, now: int, order: seq<u16>)
    requires SameEnd(left, link.left, link.net.left)
    requires var r := Heard(left.task, raw, now);
      var joined := Join(link.left.partial, r.delivered);
      && Walks(r.state, order)
      && end.left == link.left.(partial := joined.partial, emitted := link.left.emitted + joined.messages)
      && end.net.left.st == AfterPoll(r.state, now)
      && end.net.left.lost == (link.net.left.lost || Drops(r.state, now))
    ensures SameEnd(ReadEnd(left, raw, now, order), end.left, end.net.left)
  {
    ReadKeepsSmall(left.task.st, B.DecodeAll(B.Feed(left.task.rx, raw).0), now, order);
  }

  lemma RawSim(net: Net, link: LP.Link, n: nat, now: int, order: seq<u16>) returns (acts: seq<LP.Act>)
    requires Sim(net, link) && CanRead(net, n, now, order)
    ensures Quiet(acts) && Sim(OnRaw(net, n, now, order), LP.Exec(link, acts))
  {
    var t, raw := net.left.task, net.back[..n];
    var frames, kept := B.DecodeAll(B.Feed(t.rx, raw).0), B.Feed(t.rx, raw).1;
    ReadSplits(t.rx, net.back, n);
    var packets;
    acts, packets := RawRun(link, frames, InFlight(kept, net.back[n..]), now, order);
    ReadEndSame(net.left, link, LP.Exec(link, acts), raw, now, order);
    ReadKeepsSmall(t.st, frames, now, order);
    var written := Read(t, raw, now, order).frames;
    WriteLine(net.right.task.rx, net.out, link.net.out, written, packets);
    Assembled(OnRaw(net, n, now, order), LP.Exec(link, acts));
  }

  /** The four parts of the simulation. */
  lemma Assembled(net: Net, link: LP.Link)
    requires SameEnd(net.left, link.left, link.net.left)
    requires SameEnd(net.right, link.right, link.net.right)
    requires SameLine(net.right.task.rx, net.out, link.net.out)
    requires SameLine(net.left.task.rx, net.back, link.net.back)
    ensures Sim(net, link)
  {
  }

  lemma NoiseSim(net: Net, link: LP.Link, i: nat, wire: bytes) returns (acts: seq<LP.Act>)
    requires Sim(net, link) && NoiseAt(net.left.task.rx, net.back, i, wire)
    ensures Quiet(acts) && Sim(net.(back := wire), LP.Exec(link, acts))
  {
    var act := LP.OnLeft(LP.Wire(Arq.Lose(i)));
    acts := [act];
    ExecOne(link, act);
    FramesLength(link.net.back);
    if i < |link.net.back| {
      FramesWithout(link.net.back, i);
    }
    LoseStep(link, i);
    Assembled(net.(back := wire), LP.Exec(link, acts));
  }

  lemma LoseStep(link: LP.Link, i: nat)
    ensures var back := link.net.back;
      LP.Step(link, LP.OnLeft(LP.Wire(Arq.Lose(i))))
      == link.(net := link.net.(back := if i < |back| then back[..i] + back[i + 1..] else back))
  {
    assert Join(link.left.partial, []).messages == [] && link.left.emitted + [] == link.left.emitted;
  }

  /** Every step of the left end is a run of steps of the left end of the protocol. */
  lemma StepLeftSim(net: Net, link: LP.Link, ev: Event) returns (acts: seq<LP.Act>)
    requires Sim(net, link)
    ensures Sim(StepLeft(net, ev), LP.Exec(link, acts))
    ensures forall i :: 0 <= i < |acts| ==> acts[i].OnLeft? && (acts[i].ev.Queue? ==> ev.Queue?)
  {
    match ev
    case Queue(msg) =>
      acts := [LP.OnLeft(LP.Queue(msg))];
      ExecOne(link, acts[0]);
    case Pump(now) => acts := PumpSim(net, link, now);
    case Raw(n, now, order) =>
      acts := [];
      if CanRead(net, n, now, order) { acts := RawSim(net, link, n, now, order); }
    case Tick(now, order) =>
      acts := [];
      if Walks(net.left.task.st, order) { acts := TickSim(net, link, now, order); }
    case Noise(i, wire) =>
      acts := [];
      if NoiseAt(net.left.task.rx, net.back, i, wire) { acts := NoiseSim(net, link, i, wire); }
  }

  // Both ends.

  function Mirror(acts: seq<LP.Act>): seq<LP.Act> {
    if acts == [] then []
    else [if acts[0].OnLeft? then LP.OnRight(acts[0].ev) else LP.OnLeft(acts[0].ev)] + Mirror(acts[1..])
  }

  lemma {:induction false} MirrorRun(link: LP.Link, acts: seq<LP.Act>)
    ensures LP.Exec(LP.Flip(link), Mirror(acts)) == LP.Flip(LP.Exec(link, acts))
    decreases acts
  {
    if acts != [] {
      MirrorRun(LP.Step(link, acts[0]), acts[1..]);
      assert Mirror(acts)[1..] == Mirror(acts[1..]);
    }
  }

  lemma {:induction false} MirrorQueues(acts: seq<LP.Act>, queue: bool)
    requires forall i :: 0 <= i < |acts| ==> acts[i].OnLeft? && (acts[i].ev.Queue? ==> queue)
    ensures forall i :: 0 <= i < |Mirror(acts)| ==> Mirror(acts)[i].OnRight? && (Mirror(acts)[i].ev.Queue? ==> queue)
  {
    if acts != [] {
      MirrorQueues(acts[1..], queue);
    }
  }

  predicate QueuesRight(act: Act) {
    act.OnRight? && act.ev.Queue?
  }

  lemma StepSim(net: Net, link: LP.Link, act: Act) returns (acts: seq<LP.Act>)
    requires Sim(net, link)
    ensures Sim(Step(net, act), LP.Exec(link, acts))
    ensures !QueuesRight(act) ==> LP.NoRightQueue(acts)
  {
    match act
    case OnLeft(ev) => acts := StepLeftSim(net, link, ev);
    case OnRight(ev) =>
      var left := StepLeftSim(Flip(net), LP.Flip(link), ev);
      MirrorRun(LP.Flip(link), left);
      MirrorQueues(left, ev.Queue?);
      acts := Mirror(left);
  }

  /** Every run on bytes is a run on frames, with the same messages queued and emitted. */
  lemma {:induction false} RunSim(net: Net, link: LP.Link, acts: seq<Act>) returns (frames: seq<LP.Act>)
    requires Sim(net, link)
    ensures Sim(Exec(net, acts), LP.Exec(link, frames))
    ensures (forall i :: 0 <= i < |acts| ==> !QueuesRight(acts[i])) ==> LP.NoRightQueue(frames)
    decreases acts
  {
    if acts == [] {
      frames := [];
    } else {
      var p := StepSim(net, link, acts[0]);
      var q := RunSim(Step(net, acts[0]), LP.Exec(link, p), acts[1..]);
      ExecConcat(link, p, q);
      frames := p + q;
    }
  }

  lemma StartSim(rto: nat, window: nat, rto': nat, window': nat)
    ensures Sim(Start(rto, window, rto', window'), LP.Start(rto, window, rto', window'))
  {
    var none: bytes := [];
    assert none + none == none;
  }

  predicate Dropped(net: Net) {
    net.left.lost || net.right.lost
  }

  /** Messages queued at the left end, whatever the pieces their bytes are read in and whatever noise
      the line carries, are emitted at the right end in order, once each: exactly a prefix of them,
      as long as no frame has been dropped for its retries. */
  lemma BytesCarryMessages(rto: nat, window: nat, rto': nat, window': nat, acts: seq<Act>)
    requires window < 0x8000 && window' < 0x8000
    requires forall i :: 0 <= i < |acts| ==> !QueuesRight(acts[i])
    ensures var net := Exec(Start(rto, window, rto', window'), acts);
      !Dropped(net) ==> net.right.emitted <= net.left.queued
  {
    StartSim(rto, window, rto', window');
    var frames := RunSim(Start(rto, window, rto', window'), LP.Start(rto, window, rto', window'), acts);
    LP.OneWayMessagesArriveInOrder(rto, window, rto', window', frames);
  }

  /** With messages both ways, every run on bytes is a run on frames; if that one keeps its ACKs fresh,
      both directions carry their messages. */
  lemma BytesRefineFrames(rto: nat, window: nat, rto': nat, window': nat, acts: seq<Act>) returns (frames: seq<LP.Act>)
    requires window < 0x8000 && window' < 0x8000
    ensures var net := Exec(Start(rto, window, rto', window'), acts);
      var link := LP.Exec(LP.Start(rto, window, rto', window'), frames);
      && Sim(net, link)
      && (LP.FreshRun(LP.Start(rto, window, rto', window'), frames) && !Dropped(net) ==>
            net.right.emitted <= net.left.queued && net.left.emitted <= net.right.queued)
  {
    StartSim(rto, window, rto', window');
    frames := RunSim(Start(rto, window, rto', window'), LP.Start(rto, window, rto', window'), acts);
    if LP.FreshRun(LP.Start(rto, window, rto', window'), frames) {
      LP.MessagesArriveInOrder(rto, window, rto', window', frames);
    }
  }
}
