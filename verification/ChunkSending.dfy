/** The sending side: a window of chunks in flight, timed resends, selective ACKs. */
module ChunkSending {
  import opened Bytes
  import opened Chunks

  datatype Chunk = Chunk(id: u32, data: bytes)

  /** What has been sent first, what is in flight since when, what is acknowledged. */
  datatype Progress = Progress(nextUnsent: nat, inflight: map<u32, int>, acked: set<u32>, lastProgress: int)

  const Beginning := Progress(0, map[], {}, 0)

  function Content(m: Manifest, data: bytes, id: nat): bytes
    requires WithinFile(m) && id < m.totalChunks && |data| == m.totalSize
  {
    ChunkShape(m, id);
    data[Offset(m, id)..Offset(m, id) + ChunkLen(m, id)]
  }

  function Elapsed(since: int, now: int): nat {
    if now > since then now - since else 0
  }

  predicate Overdue(p: Progress, id: u32, resendAfter: nat, now: int)
    requires id in p.inflight
  {
    Elapsed(p.inflight[id], now) >= resendAfter
  }

  ghost predicate Ascending(ids: seq<u32>) {
    forall i, j :: 0 <= i < j < |ids| ==> ids[i] < ids[j]
  }

  /** The overdue ids in ascending order. */
  ghost predicate ListsOverdue(ids: seq<u32>, p: Progress, resendAfter: nat, now: int) {
    && Ascending(ids)
    && forall id :: id in ids <==> id in p.inflight && Overdue(p, id, resendAfter, now)
  }

  /** The new ids taken from `next` on while fewer than `window` are in flight, and where it stops. */
  function TakeNew(total: nat, acked: set<u32>, count: nat, window: nat, next: nat): (seq<u32>, nat)
    requires total < 0x1_0000_0000
    decreases total - next
  {
    if count >= window || next >= total then ([], next)
    else if next in acked then TakeNew(total, acked, count, window, next + 1)
    else
      var (more, stop) := TakeNew(total, acked, count + 1, window, next + 1);
      ([next] + more, stop)
  }

  function Stamped(inflight: map<u32, int>, ids: seq<u32>, now: int): map<u32, int> {
    map id | id in inflight.Keys + (set i | i in ids) :: if id in ids then now else inflight[id]
  }

  lemma StampedNext(inflight: map<u32, int>, ids: seq<u32>, k: nat, now: int)
    requires k < |ids|
    ensures Stamped(inflight, ids[..k], now)[ids[k] := now] == Stamped(inflight, ids[..k + 1], now)
  {
    assert forall x :: x in ids[..k + 1] <==> x in ids[..k] || x == ids[k];
  }

  function AfterAck(m: Manifest, p: Progress, ids: seq<u32>, now: int): Progress
    decreases ids
  {
    if ids == [] then p
    else
      var isNew := ids[0] < m.totalChunks && ids[0] !in p.acked;
      AfterAck(m, p.(acked := if isNew then p.acked + {ids[0]} else p.acked,
                     inflight := p.inflight - {ids[0]},
                     lastProgress := if isNew then now else p.lastProgress), ids[1..], now)
  }

  function AfterSend(m: Manifest, p: Progress, overdue: seq<u32>, window: nat, now: int): Progress {
    var (ids, next) := TakeNew(m.totalChunks, p.acked, |p.inflight|, window, p.nextUnsent);
    p.(nextUnsent := next, inflight := Stamped(p.inflight, overdue + ids, now))
  }

  /** How many chunks are read before one cannot be. */
  function Readable(ids: seq<u32>, fails: u32 -> bool): (k: nat)
    ensures k <= |ids|
  {
    if ids == [] || fails(ids[0]) then 0 else 1 + Readable(ids[1..], fails)
  }

  function FirstOf(ids: seq<u32>, k: nat): seq<u32> {
    if k < |ids| then ids[..k] else ids
  }

  /** As `AfterSend`, with only the first `k` chunks read. */
  function AfterReading(m: Manifest, p: Progress, overdue: seq<u32>, window: nat, now: int, k: nat): Progress {
    var (ids, next) := TakeNew(m.totalChunks, p.acked, |p.inflight|, window, p.nextUnsent);
    p.(nextUnsent := next, inflight := Stamped(p.inflight, FirstOf(overdue + ids, k), now))
  }

  function Sent(m: Manifest, data: bytes, ids: seq<u32>): seq<Chunk>
    requires WithinFile(m) && |data| == m.totalSize
    requires forall id :: id in ids ==> id < m.totalChunks
  {
    seq(|ids|, i requires 0 <= i < |ids| => assert ids[i] in ids; Chunk(ids[i], Content(m, data, ids[i])))
  }

  predicate Complete(m: Manifest, p: Progress) {
    |p.acked| == m.totalChunks
  }

  // ---- Invariant ----

  /** Every id sent so far is either in flight or acknowledged, never both, and nothing else is in
      flight. */
  ghost predicate Accounted(m: Manifest, p: Progress) {
    && p.nextUnsent <= m.totalChunks
    && (forall id :: id in p.inflight ==> id < p.nextUnsent && id !in p.acked)
    && (forall id :: id in p.acked ==> id < m.totalChunks)
    && (forall id: u32 :: id < p.nextUnsent ==> id in p.inflight || id in p.acked)
  }

  lemma {:induction false} TakenIds(total: nat, acked: set<u32>, count: nat, window: nat, next: nat)
    requires total < 0x1_0000_0000 && next <= total
    ensures var (ids, stop) := TakeNew(total, acked, count, window, next);
      && next <= stop <= total
      && Ascending(ids)
      && (forall id :: id in ids <==> next <= id < stop && id !in acked)
      && (stop < total ==> count + |ids| >= window)
      && (count <= window ==> count + |ids| <= window)
    decreases total - next
  {
    if count < window && next < total {
      if next in acked {
        TakenIds(total, acked, count, window, next + 1);
      } else {
        TakenIds(total, acked, count + 1, window, next + 1);
        var (more, _) := TakeNew(total, acked, count + 1, window, next + 1);
        assert forall j :: 0 <= j < |more| ==> more[j] in more;
      }
    }
  }

  lemma SendKeepsAccounted(m: Manifest, p: Progress, overdue: seq<u32>, window: nat, resendAfter: nat, now: int)
    requires Accounted(m, p) && ListsOverdue(overdue, p, resendAfter, now)
    ensures Accounted(m, AfterSend(m, p, overdue, window, now))
  {
    TakenIds(m.totalChunks, p.acked, |p.inflight|, window, p.nextUnsent);
  }

  lemma IdsExist(m: Manifest, p: Progress, overdue: seq<u32>, window: nat, resendAfter: nat, now: int)
    requires Accounted(m, p) && ListsOverdue(overdue, p, resendAfter, now)
    ensures forall id :: id in overdue + TakeNew(m.totalChunks, p.acked, |p.inflight|, window, p.nextUnsent).0 ==>
              id < m.totalChunks
  {
    TakenIds(m.totalChunks, p.acked, |p.inflight|, window, p.nextUnsent);
  }

  /** After a read error the sender has forgotten a chunk exactly if it had new ones to send; so the
      transfer cannot go on with it. */
  lemma ReadErrorForgetsIff(m: Manifest, p: Progress, overdue: seq<u32>, window: nat, resendAfter: nat, now: int, k: nat)
    requires Accounted(m, p) && ListsOverdue(overdue, p, resendAfter, now)
    requires k < |overdue + TakeNew(m.totalChunks, p.acked, |p.inflight|, window, p.nextUnsent).0|
    ensures Accounted(m, AfterReading(m, p, overdue, window, now, k))
       <==> TakeNew(m.totalChunks, p.acked, |p.inflight|, window, p.nextUnsent).0 == []
  {
    var (ids, next) := TakeNew(m.totalChunks, p.acked, |p.inflight|, window, p.nextUnsent);
    TakenIds(m.totalChunks, p.acked, |p.inflight|, window, p.nextUnsent);
    var all := overdue + ids;
    if ids != [] {
      var last := ids[|ids| - 1];
      assert last in ids;
      forall i | 0 <= i < k ensures all[i] != last {
        assert i < |overdue| ==> all[i] in overdue;
      }
      assert last !in all[..k];
    } else {
      assert forall id :: id in all[..k] ==> id in overdue;
    }
  }

  lemma {:induction false} AckKeepsAccounted(m: Manifest, p: Progress, ids: seq<u32>, now: int)
    requires Accounted(m, p)
    ensures var q := AfterAck(m, p, ids, now);
      && Accounted(m, q) && q.nextUnsent == p.nextUnsent
      && q.acked == p.acked + (set id | id in ids && id < m.totalChunks)
      && q.inflight == p.inflight - (set id | id in ids)
    decreases ids
  {
    if ids != [] {
      var isNew := ids[0] < m.totalChunks && ids[0] !in p.acked;
      AckKeepsAccounted(m, p.(acked := if isNew then p.acked + {ids[0]} else p.acked,
                              inflight := p.inflight - {ids[0]},
                              lastProgress := if isNew then now else p.lastProgress), ids[1..], now);
      assert forall id :: id in ids <==> id == ids[0] || id in ids[1..];
    }
  }

  function IdSet(ids: seq<u32>): set<u32> {
    set id | id in ids
  }

  lemma {:induction false} AscendingSize(ids: seq<u32>)
    requires Ascending(ids)
    ensures |IdSet(ids)| == |ids|
  {
    if ids != [] {
      var rest := ids[1..];
      AscendingSize(rest);
      assert forall j :: 0 <= j < |rest| ==> rest[j] == ids[j + 1];
      assert ids[0] !in IdSet(rest);
      assert IdSet(ids) == {ids[0]} + IdSet(rest);
    }
  }

  lemma DisjointSize(a: set<u32>, b: set<u32>)
    requires a !! b
    ensures |a + b| == |a| + |b|
  {
  }

  lemma StampedSize(inflight: map<u32, int>, again: seq<u32>, taken: seq<u32>, now: int)
    requires Ascending(taken) && (forall id :: id in again ==> id in inflight)
    requires forall id :: id in taken ==> id !in inflight
    ensures |Stamped(inflight, again + taken, now)| == |inflight| + |taken|
  {
    AscendingSize(taken);
    DisjointSize(inflight.Keys, IdSet(taken));
    var after := Stamped(inflight, again + taken, now);
    assert after.Keys == inflight.Keys + IdSet(taken);
    assert |inflight.Keys| == |inflight| && |after.Keys| == |after|;
  }

  /** A window once kept is kept. */
  lemma WindowKept(m: Manifest, p: Progress, overdue: seq<u32>, window: nat, resendAfter: nat, now: int)
    requires Accounted(m, p) && ListsOverdue(overdue, p, resendAfter, now) && |p.inflight| <= window
    ensures |AfterSend(m, p, overdue, window, now).inflight| <= window
  {
    TakenIds(m.totalChunks, p.acked, |p.inflight|, window, p.nextUnsent);
    StampedSize(p.inflight, overdue, TakeNew(m.totalChunks, p.acked, |p.inflight|, window, p.nextUnsent).0, now);
  }

  lemma {:induction false} BelowBound(s: set<u32>, n: nat)
    requires n <= 0x1_0000_0000 && forall id :: id in s ==> id < n
    ensures |s| <= n
    ensures |s| == n <==> forall id: u32 :: id < n ==> id in s
    decreases n
  {
    if n > 0 {
      var last: u32 := n - 1;
      BelowBound(s - {last}, n - 1);
      assert forall id: u32 :: id < n - 1 ==> (id in s - {last} <==> id in s);
      assert s - {last} == if last in s then s - {last} else s;
    }
  }

  /** The transfer counts as complete exactly when every chunk is acknowledged. */
  lemma CompleteIff(m: Manifest, p: Progress)
    requires Accounted(m, p)
    ensures Complete(m, p) <==> forall id: u32 :: id < m.totalChunks ==> id in p.acked
  {
    BelowBound(p.acked, m.totalChunks);
  }

  /** No unacknowledged chunk is forgotten: with everything in flight overdue, the next call sends all
      of it again, together with new chunks up to the window; so while the transfer is incomplete it
      sends something. */
  lemma NothingForgotten(m: Manifest, p: Progress, overdue: seq<u32>, window: nat, resendAfter: nat, now: int)
    requires Accounted(m, p) && ListsOverdue(overdue, p, resendAfter, now) && window > 0
    requires forall id :: id in p.inflight ==> Overdue(p, id, resendAfter, now)
    ensures var (ids, next) := TakeNew(m.totalChunks, p.acked, |p.inflight|, window, p.nextUnsent);
      && (forall id: u32 :: id < next && id !in p.acked ==> id in overdue + ids)
      && (next < m.totalChunks ==> |p.inflight| + |ids| >= window)
      && (!Complete(m, p) ==> overdue + ids != [])
  {
    var (ids, next) := TakeNew(m.totalChunks, p.acked, |p.inflight|, window, p.nextUnsent);
    TakenIds(m.totalChunks, p.acked, |p.inflight|, window, p.nextUnsent);
    if !Complete(m, p) {
      CompleteIff(m, p);
      var id: u32 :| id < m.totalChunks && id !in p.acked;
      if id >= next && ids == [] {
        var k := AnyKey(p.inflight);
        assert k in overdue;
      }
    }
  }

  lemma AnyKey(inflight: map<u32, int>) returns (id: u32)
    requires |inflight| > 0
    ensures id in inflight
  {
    id :| id in inflight.Keys;
  }

  function Insert(ids: seq<u32>, id: u32): seq<u32> {
    if ids == [] || id < ids[0] then [id] + ids else [ids[0]] + Insert(ids[1..], id)
  }

  lemma {:induction false} InsertAscending(ids: seq<u32>, id: u32)
    requires Ascending(ids) && id !in ids
    ensures Ascending(Insert(ids, id))
    ensures forall x :: x in Insert(ids, id) <==> x in ids || x == id
  {
    if ids != [] && id > ids[0] {
      InsertAscending(ids[1..], id);
      AscendingCons(ids[0], Insert(ids[1..], id), ids[1..], id);
    }
  }

  lemma AscendingCons(first: u32, rest: seq<u32>, ids: seq<u32>, id: u32)
    requires Ascending(rest) && Ascending([first] + ids) && first < id
    requires forall x :: x in rest <==> x in ids || x == id
    ensures Ascending([first] + rest)
  {
    forall j | 0 <= j < |rest| ensures first < rest[j] {
      assert rest[j] in rest;
      if rest[j] in ids {
        var i :| 0 <= i < |ids| && ids[i] == rest[j];
        assert ([first] + ids)[0] < ([first] + ids)[i + 1] == ids[i];
      }
    }
  }

  class ChunkedSender {
    const manifest: Manifest
    const source: bytes
    var nextUnsent: nat
    var inflight: map<u32, int>
    var acked: set<u32>
    var lastProgress: int

    ghost function St(): Progress
      reads this
    {
      Progress(nextUnsent, inflight, acked, lastProgress)
    }

    ghost predicate Valid()
      reads this
    {
      WithinFile(manifest) && |source| == manifest.totalSize && Accounted(manifest, St())
    }

    /** `sha256` is the hash of `data` in hexadecimal digits. */
    constructor FromBytes(data: bytes, chunkSize: nat, sha256: string, now: int)
      ensures Valid()
      ensures manifest == MakeManifest(|data|, chunkSize, sha256) && source == data
      ensures St() == Beginning.(lastProgress := now)
    {
      manifest := MakeManifest(|data|, chunkSize, sha256);
      source := data;
      nextUnsent, inflight, acked, lastProgress := 0, map[], {}, now;
    }

    method CollectOverdue(resendAfter: nat, now: int) returns (ids: seq<u32>)
      ensures ListsOverdue(ids, St(), resendAfter, now)
    {
      var todo := set id | id in inflight && Elapsed(inflight[id], now) >= resendAfter;
      ghost var all := todo;
      ids := [];
      while todo != {}
        invariant todo <= all && Ascending(ids)
        invariant forall id :: id in ids <==> id in all && id !in todo
        decreases todo
      {
        var id :| id in todo;
        InsertAscending(ids, id);
        ids := Insert(ids, id);
        todo := todo - {id};
      }
    }

    method TakeFresh(window: nat) returns (ids: seq<u32>)
      requires nextUnsent <= manifest.totalChunks
      modifies this`nextUnsent
      ensures (ids, nextUnsent) == TakeNew(manifest.totalChunks, acked, |inflight|, window, old(nextUnsent))
    {
      ids := [];
      var added := 0;
      ghost var all := TakeNew(manifest.totalChunks, acked, |inflight|, window, nextUnsent);
      assert [] + all.0 == all.0;
      while |inflight| + added < window && nextUnsent < manifest.totalChunks
        invariant nextUnsent <= manifest.totalChunks
        invariant var (more, stop) := TakeNew(manifest.totalChunks, acked, |inflight| + added, window, nextUnsent);
          all == (ids + more, stop)
        decreases manifest.totalChunks - nextUnsent
      {
        var id := nextUnsent;
        nextUnsent := nextUnsent + 1;
        if id !in acked {
          Reassociate(ids, [id], TakeNew(manifest.totalChunks, acked, |inflight| + added + 1, window, nextUnsent).0);
          ids := ids + [id];
          added := added + 1;
        }
      }
      assert ids + [] == ids;
    }

    /** The chunks to send now: the overdue ones, then new ones up to the window. `fails` tells which
        chunks the source cannot read; the first of them ends the call, and what was passed over stays
        passed over. */
    method NextChunks(window: nat, resendAfter: nat, now: int, fails: u32 -> bool)
      returns (r: Result<seq<Chunk>>, ghost overdue: seq<u32>)
      requires Valid()
      modifies this`nextUnsent, this`inflight
      ensures ListsOverdue(overdue, old(St()), resendAfter, now)
      ensures var (ids, _) := TakeNew(manifest.totalChunks, old(acked), |old(inflight)|, window, old(nextUnsent));
        var k := Readable(overdue + ids, fails);
        && St() == AfterReading(manifest, old(St()), overdue, window, now, k)
        && (r.Ok? <==> k == |overdue + ids|)
        && (forall id :: id in overdue + ids ==> id < manifest.totalChunks)
        && (r.Ok? ==> Valid() && r.value == Sent(manifest, source, overdue + ids))
    {
      var resends := CollectOverdue(resendAfter, now);
      overdue := resends;
      SendKeepsAccounted(manifest, St(), overdue, window, resendAfter, now);
      IdsExist(manifest, St(), overdue, window, resendAfter, now);
      var added := TakeFresh(window);
      r := ReadChunks(resends + added, now, fails);
    }

    method ReadChunks(ids: seq<u32>, now: int, fails: u32 -> bool) returns (r: Result<seq<Chunk>>)
      requires WithinFile(manifest) && |source| == manifest.totalSize
      requires forall id :: id in ids ==> id < manifest.totalChunks
      modifies this`inflight
      ensures inflight == Stamped(old(inflight), FirstOf(ids, Readable(ids, fails)), now)
      ensures r.Ok? <==> Readable(ids, fails) == |ids|
      ensures r.Ok? ==> r.value == Sent(manifest, source, ids)
    {
      var out := [];
      assert ids[0..] == ids;
      for k := 0 to |ids|
        invariant inflight == Stamped(old(inflight), ids[..k], now)
        invariant |out| == k && forall i :: 0 <= i < k ==> out[i] == Sent(manifest, source, ids)[i]
        invariant Readable(ids, fails) == k + Readable(ids[k..], fails)
      {
        var id := ids[k];
        assert id in ids && ids[k..][0] == id && ids[k..][1..] == ids[k + 1..];
        if fails(id) {
          return Err("read error");
        }
        var data := ReadChunk(id);
        StampedNext(old(inflight), ids, k, now);
        inflight := inflight[id := now];
        out := out + [Chunk(id, data)];
      }
      assert ids[..|ids|] == ids;
      return Ok(out);
    }

    method ReadChunk(id: u32) returns (data: bytes)
      requires WithinFile(manifest) && |source| == manifest.totalSize && id < manifest.totalChunks
      ensures data == Content(manifest, source, id)
    {
      ChunkShape(manifest, id);
      var start := id * manifest.chunkSize;
      data := source[start..start + ChunkLen(manifest, id)];
    }

    method OnAck(ids: seq<u32>, now: int)
      requires Valid()
      modifies this`acked, this`inflight, this`lastProgress
      ensures Valid() && St() == AfterAck(manifest, old(St()), ids, now)
    {
      AckKeepsAccounted(manifest, St(), ids, now);
      ghost var end := AfterAck(manifest, St(), ids, now);
      assert ids[0..] == ids;
      for k := 0 to |ids|
        invariant end == AfterAck(manifest, St(), ids[k..], now)
      {
        var id := ids[k];
        assert ids[k..][0] == id && ids[k..][1..] == ids[k + 1..];
        if id < manifest.totalChunks && id !in acked {
          acked := acked + {id};
          lastProgress := now;
        }
        inflight := inflight - {id};
      }
    }

    method IsComplete() returns (complete: bool)
      requires Valid()
      ensures complete <==> forall id: u32 :: id < manifest.totalChunks ==> id in acked
    {
      CompleteIff(manifest, St());
      complete := |acked| == manifest.totalChunks;
    }
  }
}
