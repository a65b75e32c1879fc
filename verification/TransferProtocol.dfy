/**
 A file on its way through a channel that may lose, repeat and reorder everything: `chunks` and
 `acks` hold all that was ever sent, and any of it may arrive at any time, any number of times.
 */
module TransferProtocol {
  import opened Bytes
  import opened Chunks
  import opened ChunkSending
  import opened ChunkReceiving
  import opened IncomingFiles

  datatype Net = Net(
    manifest: Manifest, data: bytes, sender: Progress, receiver: Incoming, chunks: set<Chunk>, acks: set<seq<u32>>)

  datatype Event =
    | Offer
    | Send(window: nat, resendAfter: nat, now: int, overdue: seq<u32>)
    | ChunkArrives(chunk: Chunk)
    | AckArrives(ids: seq<u32>, now: int)
    | Finish

  /** The hash function gives 64 lower-case hexadecimal digits. */
  ghost predicate HexHash(sha: bytes -> string) {
    forall x :: HexSha(sha(x)) && Lower(sha(x)) == sha(x)
  }

  function Start(sha: bytes -> string, data: bytes, chunkSize: nat): Net {
    Net(MakeManifest(|data|, chunkSize, sha(data)), data, Beginning, NoOffer, {}, {})
  }

  ghost predicate SenderOk(net: Net) {
    && WithinFile(net.manifest) && |net.data| == net.manifest.totalSize
    && Accounted(net.manifest, net.sender)
  }

  ghost function ChunkSet(sent: seq<Chunk>): set<Chunk> {
    set c | c in sent
  }

  ghost function OnSend(net: Net, ev: Event): Net
    requires ev.Send?
    requires SenderOk(net) && ListsOverdue(ev.overdue, net.sender, ev.resendAfter, ev.now)
  {
    var (ids, _) := TakeNew(net.manifest.totalChunks, net.sender.acked, |net.sender.inflight|, ev.window,
            net.sender.nextUnsent);
    TakenIds(net.manifest.totalChunks, net.sender.acked, |net.sender.inflight|, ev.window, net.sender.nextUnsent);
    var sent := Sent(net.manifest, net.data, ev.overdue + ids);
    net.(sender := AfterSend(net.manifest, net.sender, ev.overdue, ev.window, ev.now),
         chunks := net.chunks + ChunkSet(sent))
  }

  ghost function OnArrival(net: Net, c: Chunk): Net
    requires StoreFits(net.manifest, net.receiver)
  {
    var (r, ack) := OnChunk(net.manifest, net.receiver, c.id, c.data);
    net.(receiver := r, acks := net.acks + if ack.Some? then {ack.value} else {})
  }

  /** Events that cannot happen change nothing. */
  ghost function Step(sha: bytes -> string, net: Net, ev: Event): Net {
    match ev
    case Offer => net.(receiver := OnOffer(net.manifest, net.receiver))
    case Send(_, resendAfter, now, overdue) =>
      if SenderOk(net) && !Complete(net.manifest, net.sender) && ListsOverdue(overdue, net.sender, resendAfter, now)
      then OnSend(net, ev) else net
    case ChunkArrives(c) =>
      if c in net.chunks && StoreFits(net.manifest, net.receiver) then OnArrival(net, c) else net
    case AckArrives(ids, now) =>
      if ids in net.acks then net.(sender := AfterAck(net.manifest, net.sender, ids, now)) else net
    case Finish => net.(receiver := OnFinish(sha, net.manifest, net.receiver))
  }

  ghost function Exec(sha: bytes -> string, net: Net, events: seq<Event>): Net
    decreases events
  {
    if events == [] then net else Exec(sha, Step(sha, net, events[0]), events[1..])
  }

  // ---- Invariant ----

  predicate InGap(r: Incoming) {
    r.finishing > 0 && r.active.None? && !r.completed
  }

  /** No offer is repeated just between the last chunk and the listing of the file as completed. */
  ghost predicate NoGapOffers(sha: bytes -> string, net: Net, events: seq<Event>)
    decreases events
  {
    events == []
    || ((events[0].Offer? ==> !InGap(net.receiver)) && NoGapOffers(sha, Step(sha, net, events[0]), events[1..]))
  }

  /** What the receiver has is right. */
  ghost predicate ReceiverOk(m: Manifest, data: bytes, r: Incoming) {
    if r.active.Some? then
      && Holds(m, data, Store(r.file, r.active.value)) && !HasAll(m, Store(r.file, r.active.value))
      && r.finishing == 0 && !r.completed && r.partExists && r.results == []
    else if r.completed then
      Validate(m).Ok? && r.finishing == 0 && r.results == [Ok(data)]
    else if r.finishing > 0 then
      Validate(m).Ok? && r.finishing == 1 && r.file == data && r.partExists && r.results == []
    else r.results == []
  }

  predicate Engaged(r: Incoming) {
    r.active.Some? || r.completed
  }

  predicate Has(r: Incoming, id: u32) {
    if r.active.Some? then id in r.active.value else r.finishing > 0 || r.completed
  }

  ghost predicate Inv(sha: bytes -> string, net: Net) {
    && SenderOk(net) && net.manifest.sha256 == sha(net.data)
    && ReceiverOk(net.manifest, net.data, net.receiver)
    && (forall c :: c in net.chunks ==>
          c.id < net.manifest.totalChunks && c.data == Content(net.manifest, net.data, c.id))
    && (forall ids, id :: ids in net.acks && id in ids ==> Has(net.receiver, id))
    && (forall id :: id in net.sender.acked ==> Has(net.receiver, id))
  }

  lemma SentContent(m: Manifest, data: bytes, ids: seq<u32>)
    requires WithinFile(m) && |data| == m.totalSize && forall id :: id in ids ==> id < m.totalChunks
    ensures forall c :: c in ChunkSet(Sent(m, data, ids)) ==> c.id in ids && c.data == Content(m, data, c.id)
  {
    forall c | c in ChunkSet(Sent(m, data, ids)) ensures c.id in ids && c.data == Content(m, data, c.id) {
      var i :| 0 <= i < |ids| && c == Sent(m, data, ids)[i];
      assert ids[i] in ids;
    }
  }

  lemma SendKeepsInv(sha: bytes -> string, net: Net, ev: Event)
    requires Inv(sha, net) && ev.Send? && ListsOverdue(ev.overdue, net.sender, ev.resendAfter, ev.now)
    ensures Inv(sha, OnSend(net, ev))
  {
    var m, p := net.manifest, net.sender;
    var (ids, _) := TakeNew(m.totalChunks, p.acked, |p.inflight|, ev.window, p.nextUnsent);
    TakenIds(m.totalChunks, p.acked, |p.inflight|, ev.window, p.nextUnsent);
    SendKeepsAccounted(m, p, ev.overdue, ev.window, ev.resendAfter, ev.now);
    SentContent(m, net.data, ev.overdue + ids);
    MoreChunksKeepInv(sha, net, AfterSend(m, p, ev.overdue, ev.window, ev.now), ChunkSet(Sent(m, net.data,
            ev.overdue + ids)));
  }

  lemma MoreChunksKeepInv(sha: bytes -> string, net: Net, p: Progress, more: set<Chunk>)
    requires Inv(sha, net) && Accounted(net.manifest, p) && p.acked == net.sender.acked
    requires forall c :: c in more ==>
      c.id < net.manifest.totalChunks && c.data == Content(net.manifest, net.data, c.id)
    ensures Inv(sha, net.(sender := p, chunks := net.chunks + more))
  {
  }

  lemma ArrivalKeepsReceiver(m: Manifest, data: bytes, r: Incoming, id: u32)
    requires WithinFile(m) && |data| == m.totalSize && id < m.totalChunks && ReceiverOk(m, data, r)
    ensures StoreFits(m, r)
    ensures var (t, ack) := OnChunk(m, r, id, Content(m, data, id));
      && ReceiverOk(m, data, t)
      && (Engaged(r) ==> ack == Some([id]))
      && (ack.Some? ==> ack == Some([id]) && Has(t, id))
      && forall i :: Has(r, i) ==> Has(t, i)
  {
    if r.active.Some? {
      var s := Store(r.file, r.active.value);
      ReceiveKeepsHolds(m, data, s, id);
      var (t, _) := Receive(m, s, id, Content(m, data, id));
      if HasAll(m, t) {
        CompleteFileIsSource(m, data, t);
      }
    }
  }

  lemma ArrivalKeepsInv(sha: bytes -> string, net: Net, c: Chunk)
    requires Inv(sha, net) && c in net.chunks
    ensures StoreFits(net.manifest, net.receiver) && Inv(sha, OnArrival(net, c))
    ensures Engaged(net.receiver) ==> [c.id] in OnArrival(net, c).acks
  {
    ArrivalKeepsReceiver(net.manifest, net.data, net.receiver, c.id);
  }

  lemma AckKeepsInv(sha: bytes -> string, net: Net, ids: seq<u32>, now: int)
    requires Inv(sha, net) && ids in net.acks
    ensures Inv(sha, net.(sender := AfterAck(net.manifest, net.sender, ids, now)))
  {
    AckKeepsAccounted(net.manifest, net.sender, ids, now);
  }

  /** The hash always fits: a file that is all there is never rejected. */
  lemma FinishKeepsInv(sha: bytes -> string, net: Net)
    requires HexHash(sha) && Inv(sha, net)
    ensures Inv(sha, net.(receiver := OnFinish(sha, net.manifest, net.receiver)))
  {
  }

  lemma OfferKeepsInv(sha: bytes -> string, net: Net)
    requires Inv(sha, net) && !InGap(net.receiver)
    ensures Inv(sha, net.(receiver := OnOffer(net.manifest, net.receiver)))
  {
  }

  lemma StepKeepsInv(sha: bytes -> string, net: Net, ev: Event)
    requires HexHash(sha) && Inv(sha, net) && (ev.Offer? ==> !InGap(net.receiver))
    ensures Inv(sha, Step(sha, net, ev))
    ensures Step(sha, net, ev).data == net.data && Step(sha, net, ev).manifest == net.manifest
  {
    match ev
    case Offer => OfferKeepsInv(sha, net);
    case Send(_, resendAfter, now, overdue) =>
      if ListsOverdue(overdue, net.sender, resendAfter, now) { SendKeepsInv(sha, net, ev); }
    case ChunkArrives(c) => if c in net.chunks { ArrivalKeepsInv(sha, net, c); }
    case AckArrives(ids, now) => if ids in net.acks { AckKeepsInv(sha, net, ids, now); }
    case Finish => FinishKeepsInv(sha, net);
  }

  lemma {:induction false} RunKeepsInv(sha: bytes -> string, net: Net, events: seq<Event>)
    requires HexHash(sha) && Inv(sha, net) && NoGapOffers(sha, net, events)
    ensures Inv(sha, Exec(sha, net, events))
    ensures Exec(sha, net, events).data == net.data && Exec(sha, net, events).manifest == net.manifest
    decreases events
  {
    if events != [] {
      StepKeepsInv(sha, net, events[0]);
      RunKeepsInv(sha, Step(sha, net, events[0]), events[1..]);
    }
  }

  lemma StartInv(sha: bytes -> string, data: bytes, chunkSize: nat)
    requires HexHash(sha)
    ensures Inv(sha, Start(sha, data, chunkSize))
  {
    SenderManifestValidIff(|data|, chunkSize, sha(data));
  }

  // ---- Theorems ----

  /** Whatever is lost, repeated or reordered, but for an offer that comes again in the gap: a receiver
      that completes has exactly the source, once, and never a checksum mismatch, and a sender that
      believes the transfer complete is right. */
  lemma TransferCorrect(sha: bytes -> string, data: bytes, chunkSize: nat, events: seq<Event>)
    requires HexHash(sha) && NoGapOffers(sha, Start(sha, data, chunkSize), events)
    ensures var net := Exec(sha, Start(sha, data, chunkSize), events);
      && (net.receiver.results != [] ==> net.receiver.results == [Ok(data)])
      && (InGap(net.receiver) ==> net.receiver.file == data)
      && (Complete(net.manifest, net.sender) ==>
            net.manifest.totalChunks == 0 || net.receiver.completed || InGap(net.receiver))
  {
    StartInv(sha, data, chunkSize);
    RunKeepsInv(sha, Start(sha, data, chunkSize), events);
    InvCorrect(sha, Exec(sha, Start(sha, data, chunkSize), events));
  }

  lemma InvCorrect(sha: bytes -> string, net: Net)
    requires Inv(sha, net)
    ensures Complete(net.manifest, net.sender) ==>
      net.manifest.totalChunks == 0 || net.receiver.completed || InGap(net.receiver)
  {
    CompleteIff(net.manifest, net.sender);
    if Complete(net.manifest, net.sender) && net.manifest.totalChunks > 0 {
      assert 0 in net.sender.acked;
      if net.receiver.active.Some? {
        var received := net.receiver.active.value;
        forall id: u32 | id < net.manifest.totalChunks ensures id in received {
          assert id in net.sender.acked;
        }
        BelowBound(received, net.manifest.totalChunks);
      }
    }
  }

  /** An offer in the gap empties the file under the hands of the receiver that is about to hash it. If
      nothing comes before the hashing, the file is right exactly if the hash cannot tell. */
  lemma GapOfferSpoilsIff(sha: bytes -> string, net: Net)
    requires HexHash(sha) && Inv(sha, net) && InGap(net.receiver) && net.manifest.totalChunks > 0
    ensures var spoiled := Exec(sha, net, [Offer, Finish]).receiver;
      && (spoiled.results == [Err("checksum mismatch")] <==> sha(Zeros(|net.data|)) != sha(net.data))
      && spoiled.active == Some({}) && spoiled.completed
  {
    var offered := Step(sha, net, Offer);
    var spoiled := Step(sha, offered, Finish);
    RunOfOne(sha, net, Offer);
    RunOfOne(sha, offered, Finish);
    ExecConcat(sha, net, [Offer], [Finish]);
    assert [Offer] + [Finish] == [Offer, Finish];
    assert offered.receiver.file == Zeros(|net.data|) && offered.receiver.results == [];
    assert Lower(net.manifest.sha256) == sha(net.data);
    assert spoiled.receiver.results
        == [if sha(Zeros(|net.data|)) != sha(net.data) then Err("checksum mismatch") else Ok(Zeros(|net.data|))];
  }

  /** Such a run, for any file of one chunk. */
  lemma GapOfferRun(sha: bytes -> string, data: bytes) returns (events: seq<Event>)
    requires HexHash(sha) && 0 < |data| <= MAX_CHUNK_SIZE
    ensures var end := Exec(sha, Start(sha, data, MAX_CHUNK_SIZE), events).receiver;
      end.results == [Err("checksum mismatch")] <==> sha(Zeros(|data|)) != sha(data)
  {
    var start := Start(sha, data, MAX_CHUNK_SIZE);
    StartInv(sha, data, MAX_CHUNK_SIZE);
    var p := Engage(sha, start);
    RunKeepsInv(sha, start, p);
    var q := FillOneChunk(sha, Exec(sha, start, p));
    ExecConcat(sha, start, p, q);
    RunKeepsInv(sha, Exec(sha, start, p), q);
    GapOfferSpoilsIff(sha, Exec(sha, start, p + q));
    ExecConcat(sha, start, p + q, [Offer, Finish]);
    events := p + q + [Offer, Finish];
  }

  lemma FillOneChunk(sha: bytes -> string, net: Net) returns (events: seq<Event>)
    requires HexHash(sha) && Inv(sha, net) && net.receiver.active.Some? && net.manifest.totalChunks == 1
    requires !Complete(net.manifest, net.sender)
    ensures NoGapOffers(sha, net, events) && InGap(Exec(sha, net, events).receiver)
  {
    var ev, c := SendSomething(sha, net, 1, 0);
    StepKeepsInv(sha, net, ev);
    var sent := Step(sha, net, ev);
    OneChunkCompletes(sha, sent, c);
    RunOfOne(sha, net, ev);
    RunOfOne(sha, sent, ChunkArrives(c));
    ExecConcat(sha, net, [ev], [ChunkArrives(c)]);
    events := [ev] + [ChunkArrives(c)];
    NoOffersNoGap(sha, net, events);
  }

  lemma OneChunkCompletes(sha: bytes -> string, net: Net, c: Chunk)
    requires Inv(sha, net) && c in net.chunks && net.receiver.active.Some? && net.manifest.totalChunks == 1
    ensures InGap(Step(sha, net, ChunkArrives(c)).receiver)
  {
    var s := Store(net.receiver.file, net.receiver.active.value);
    ReceiveKeepsHolds(net.manifest, net.data, s, c.id);
    BelowBound(s.received, 1);
    assert s.received == {};
    assert s.received + {c.id} == {0};
  }

  // ---- No state is a dead end ----

  lemma {:induction false} ExecConcat(sha: bytes -> string, net: Net, p: seq<Event>, q: seq<Event>)
    ensures Exec(sha, net, p + q) == Exec(sha, Exec(sha, net, p), q)
    decreases p
  {
    if p == [] {
      assert p + q == q;
    } else {
      assert (p + q)[1..] == p[1..] + q;
      ExecConcat(sha, Step(sha, net, p[0]), p[1..], q);
    }
  }

  lemma RunOfOne(sha: bytes -> string, net: Net, ev: Event)
    ensures Exec(sha, net, [ev]) == Step(sha, net, ev)
  {
    assert [ev][1..] == [];
    assert Exec(sha, Step(sha, net, ev), []) == Step(sha, net, ev);
  }

  lemma {:induction false} Listing(s: set<u32>) returns (ids: seq<u32>)
    ensures Ascending(ids) && forall id :: id in ids <==> id in s
    decreases s
  {
    ids := [];
    if s != {} {
      var id :| id in s;
      var rest := Listing(s - {id});
      InsertAscending(rest, id);
      ids := Insert(rest, id);
    }
  }

  lemma {:induction false} LatestSend(inflight: map<u32, int>) returns (t: int)
    ensures forall id :: id in inflight ==> inflight[id] <= t
    decreases inflight.Keys
  {
    t := 0;
    if inflight.Keys != {} {
      var id :| id in inflight.Keys;
      var rest := inflight - {id};
      t := LatestSend(rest);
      assert forall k :: k in inflight ==> k == id || (k in rest && rest[k] == inflight[k]);
      t := if t < inflight[id] then inflight[id] else t;
    }
  }

  /** Late enough, the sender sends some chunk that is not acknowledged. */
  lemma SendSomething(sha: bytes -> string, net: Net, window: nat, resendAfter: nat) returns (ev: Event, c: Chunk)
    requires HexHash(sha) && Inv(sha, net) && !Complete(net.manifest, net.sender) && window > 0
    ensures ev.Send?
    ensures var next := Step(sha, net, ev);
      && c in next.chunks && c.id < net.manifest.totalChunks && c.id !in net.sender.acked
      && next.receiver == net.receiver && next.sender.acked == net.sender.acked
  {
    var m, p := net.manifest, net.sender;
    var latest := LatestSend(p.inflight);
    var now := latest + resendAfter;
    var overdue := Listing(p.inflight.Keys);
    ev := Send(window, resendAfter, now, overdue);
    var (ids, _) := TakeNew(m.totalChunks, p.acked, |p.inflight|, window, p.nextUnsent);
    TakenIds(m.totalChunks, p.acked, |p.inflight|, window, p.nextUnsent);
    assert ListsOverdue(overdue, p, resendAfter, now);
    NothingForgotten(m, p, overdue, window, resendAfter, now);
    var sent := Sent(m, net.data, overdue + ids);
    assert (overdue + ids)[0] in overdue + ids;
    c := sent[0];
    assert c in ChunkSet(sent);
  }

  /** Delivering one more chunk and its acknowledgement. */
  lemma AcknowledgeOne(sha: bytes -> string, net: Net, c: Chunk) returns (events: seq<Event>)
    requires HexHash(sha) && Inv(sha, net) && c in net.chunks && c.id !in net.sender.acked
    requires Engaged(net.receiver)
    ensures NoOffers(events)
    ensures var next := Exec(sha, net, events);
      next.sender.acked == net.sender.acked + {c.id}
  {
    ArrivalKeepsInv(sha, net, c);
    var there := OnArrival(net, c);
    RunOfOne(sha, net, ChunkArrives(c));
    AckKeepsAccounted(net.manifest, net.sender, [c.id], 0);
    assert AfterAck(net.manifest, net.sender, [c.id], 0).acked == net.sender.acked + {c.id};
    RunOfOne(sha, there, AckArrives([c.id], 0));
    events := [ChunkArrives(c)] + [AckArrives([c.id], 0)];
    ExecConcat(sha, net, [ChunkArrives(c)], [AckArrives([c.id], 0)]);
  }

  /** Making the receiver take part, if it does not yet. */
  lemma Engage(sha: bytes -> string, net: Net) returns (events: seq<Event>)
    requires HexHash(sha) && Inv(sha, net) && Validate(net.manifest).Ok?
    ensures NoGapOffers(sha, net, events)
    ensures var next := Exec(sha, net, events);
      && Engaged(next.receiver) && next.sender == net.sender && next.chunks == net.chunks
      && (net.receiver == NoOffer && net.manifest.totalChunks > 0 ==> next.receiver.active.Some?)
  {
    if net.receiver.active.None? && net.receiver.finishing == 0 && !net.receiver.completed {
      RunOfOne(sha, net, Offer);
      RunOfOne(sha, Step(sha, net, Offer), Finish);
      ExecConcat(sha, net, [Offer], [Finish]);
      events := [Offer] + [Finish];
      assert events[1..] == [Finish];
      NoOffersNoGap(sha, Step(sha, net, Offer), [Finish]);
    } else {
      RunOfOne(sha, net, Finish);
      events := [Finish];
      NoOffersNoGap(sha, net, events);
    }
  }

  predicate NoOffers(events: seq<Event>) {
    forall i :: 0 <= i < |events| ==> !events[i].Offer?
  }

  lemma {:induction false} NoOffersNoGap(sha: bytes -> string, net: Net, events: seq<Event>)
    requires NoOffers(events)
    ensures NoGapOffers(sha, net, events)
    decreases events
  {
    if events != [] {
      NoOffersNoGap(sha, Step(sha, net, events[0]), events[1..]);
    }
  }

  lemma {:induction false} NoGapConcat(sha: bytes -> string, net: Net, p: seq<Event>, q: seq<Event>)
    requires NoGapOffers(sha, net, p) && NoGapOffers(sha, Exec(sha, net, p), q)
    ensures NoGapOffers(sha, net, p + q)
    decreases p
  {
    if p == [] {
      assert p + q == q;
    } else {
      assert (p + q)[1..] == p[1..] + q;
      NoGapConcat(sha, Step(sha, net, p[0]), p[1..], q);
    }
  }

  /** The file has been delivered, once. */
  predicate Delivered(r: Incoming, data: bytes) {
    r.completed && r.results == [Ok(data)]
  }

  lemma {:induction false} TransferCanComplete(sha: bytes -> string, net: Net, window: nat, resendAfter: nat)
    returns (events: seq<Event>)
    requires HexHash(sha) && Inv(sha, net) && Validate(net.manifest).Ok? && window > 0
    ensures NoGapOffers(sha, net, events)
    ensures var end := Exec(sha, net, events);
      Complete(net.manifest, end.sender) && Delivered(end.receiver, net.data)
    decreases net.manifest.totalChunks - |net.sender.acked|
  {
    var p := Engage(sha, net);
    var engaged := Exec(sha, net, p);
    RunKeepsInv(sha, net, p);
    BelowBound(engaged.sender.acked, net.manifest.totalChunks);
    if Complete(net.manifest, engaged.sender) {
      EngagedIsDone(sha, engaged);
      events := p;
    } else {
      var q := OneMore(sha, engaged, window, resendAfter);
      NoOffersNoGap(sha, engaged, q);
      var next := Exec(sha, engaged, q);
      RunKeepsInv(sha, engaged, q);
      BelowBound(next.sender.acked, net.manifest.totalChunks);
      var rest := TransferCanComplete(sha, next, window, resendAfter);
      ExecConcat(sha, engaged, q, rest);
      NoGapConcat(sha, engaged, q, rest);
      ExecConcat(sha, net, p, q + rest);
      NoGapConcat(sha, net, p, q + rest);
      events := p + (q + rest);
    }
  }

  lemma EngagedIsDone(sha: bytes -> string, net: Net)
    requires Inv(sha, net) && Complete(net.manifest, net.sender) && Engaged(net.receiver)
    ensures Delivered(net.receiver, net.data)
  {
    InvCorrect(sha, net);
    if net.manifest.totalChunks == 0 {
      NothingToWaitFor(net.manifest, net.data, net.receiver);
    }
  }

  lemma NothingToWaitFor(m: Manifest, data: bytes, r: Incoming)
    requires ReceiverOk(m, data, r) && m.totalChunks == 0
    ensures r.active.None?
  {
    BelowBound(if r.active.Some? then r.active.value else {}, 0);
  }

  lemma OneMore(sha: bytes -> string, net: Net, window: nat, resendAfter: nat) returns (events: seq<Event>)
    requires HexHash(sha) && Inv(sha, net) && !Complete(net.manifest, net.sender) && window > 0
    requires Engaged(net.receiver)
    ensures NoOffers(events) && |Exec(sha, net, events).sender.acked| == |net.sender.acked| + 1
  {
    var ev, c := SendSomething(sha, net, window, resendAfter);
    RunOfOne(sha, net, ev);
    StepKeepsInv(sha, net, ev);
    var q := AcknowledgeOne(sha, Step(sha, net, ev), c);
    ExecConcat(sha, net, [ev], q);
    events := [ev] + q;
  }

  /** From every reachable state, whatever has been lost so far, some continuation completes the
      transfer on both sides; the sender's window and resend time are free. */
  lemma TransferNeverStuck(sha: bytes -> string, data: bytes, chunkSize: nat, past: seq<Event>,
                           window: nat, resendAfter: nat) returns (future: seq<Event>)
    requires HexHash(sha) && window > 0 && Validate(MakeManifest(|data|, chunkSize, sha(data))).Ok?
    requires NoGapOffers(sha, Start(sha, data, chunkSize), past)
    ensures var end := Exec(sha, Start(sha, data, chunkSize), past + future);
      Complete(end.manifest, end.sender) && Delivered(end.receiver, data)
  {
    var start := Start(sha, data, chunkSize);
    StartInv(sha, data, chunkSize);
    RunKeepsInv(sha, start, past);
    future := TransferCanComplete(sha, Exec(sha, start, past), window, resendAfter);
    NoGapConcat(sha, start, past, future);
    RunKeepsInv(sha, start, past + future);
    ExecConcat(sha, start, past, future);
  }
}
