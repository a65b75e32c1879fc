/** An incoming file from a sender that offers and sends whatever it likes. */
module AnySender {
  import opened Bytes
  import opened Chunks
  import opened ChunkReceiving
  import opened IncomingFiles

  datatype Event = Offered | ChunkCame(id: u32, data: bytes) | Finished

  ghost function After(sha: bytes -> string, m: Manifest, r: Incoming, ev: Event): Incoming {
    match ev
    case Offered => OnOffer(m, r)
    case ChunkCame(id, data) => if StoreFits(m, r) then OnChunk(m, r, id, data).0 else r
    case Finished => OnFinish(sha, m, r)
  }

  ghost function AfterAll(sha: bytes -> string, m: Manifest, r: Incoming, evs: seq<Event>): Incoming
    decreases evs
  {
    if evs == [] then r else AfterAll(sha, m, After(sha, m, r, evs[0]), evs[1..])
  }

  /** The file handed over is as long as offered and has the hash offered. */
  predicate AsOffered(sha: bytes -> string, m: Manifest, result: Result<bytes>) {
    result.Ok? ==> Validate(m).Ok? && |result.value| == m.totalSize && sha(result.value) == Lower(m.sha256)
  }

  ghost predicate Kept(sha: bytes -> string, m: Manifest, r: Incoming) {
    && (r.active.Some? || r.finishing > 0 ==> Validate(m).Ok? && |r.file| == m.totalSize)
    && forall i :: 0 <= i < |r.results| ==> AsOffered(sha, m, r.results[i])
  }

  lemma EventKeeps(sha: bytes -> string, m: Manifest, r: Incoming, ev: Event)
    requires Kept(sha, m, r)
    ensures Kept(sha, m, After(sha, m, r, ev))
  {
    if ev.ChunkCame? && r.active.Some? && StoreFits(m, r) {
      TakenIff(m, Store(r.file, r.active.value), ev.id, ev.data);
    }
  }

  lemma {:induction false} RunKeeps(sha: bytes -> string, m: Manifest, r: Incoming, evs: seq<Event>)
    requires Kept(sha, m, r)
    ensures Kept(sha, m, AfterAll(sha, m, r, evs))
    decreases evs
  {
    if evs != [] {
      EventKeeps(sha, m, r, evs[0]);
      RunKeeps(sha, m, After(sha, m, r, evs[0]), evs[1..]);
    }
  }

  /** Whatever is offered and sent, in whatever order: every file handed over comes from an acceptable
      offer, is as long as it says and has the hash it says. */
  lemma HandedOverAsOffered(sha: bytes -> string, m: Manifest, evs: seq<Event>)
    ensures var r := AfterAll(sha, m, NoOffer, evs);
      forall i :: 0 <= i < |r.results| && r.results[i].Ok? ==>
        && Validate(m).Ok? && |r.results[i].value| == m.totalSize && sha(r.results[i].value) == Lower(m.sha256)
  {
    RunKeeps(sha, m, NoOffer, evs);
    var r := AfterAll(sha, m, NoOffer, evs);
    forall i | 0 <= i < |r.results| ensures AsOffered(sha, m, r.results[i]) {
    }
  }

  function Offers(evs: seq<Event>): nat {
    if evs == [] then 0 else (if evs[0].Offered? then 1 else 0) + Offers(evs[1..])
  }

  function HandedOver(results: seq<Result<bytes>>): nat {
    if results == [] then 0
    else HandedOver(results[..|results| - 1]) + if results[|results| - 1].Ok? then 1 else 0
  }

  lemma ResultsSnoc(results: seq<Result<bytes>>, last: Result<bytes>)
    ensures HandedOver(results + [last]) == HandedOver(results) + if last.Ok? then 1 else 0
  {
    assert (results + [last])[..|results|] == results;
  }

  /** The part files there have been: those handed over, and the one in place. */
  function Parts(r: Incoming): nat {
    HandedOver(r.results) + if r.partExists then 1 else 0
  }

  lemma EventUsesPart(sha: bytes -> string, m: Manifest, r: Incoming, ev: Event)
    ensures Parts(After(sha, m, r, ev)) <= Parts(r) + if ev.Offered? then 1 else 0
  {
    if ev.Finished? && r.finishing > 0 {
      var results := After(sha, m, r, ev).results;
      ResultsSnoc(r.results, results[|results| - 1]);
    }
  }

  /** However often offers and chunks are repeated, no more files are handed over than were offered: the
      part file moved into place is gone. */
  lemma {:induction false} OncePerOffer(sha: bytes -> string, m: Manifest, r: Incoming, evs: seq<Event>)
    ensures HandedOver(AfterAll(sha, m, r, evs).results) <= Parts(r) + Offers(evs)
    decreases evs
  {
    if evs != [] {
      EventUsesPart(sha, m, r, evs[0]);
      OncePerOffer(sha, m, After(sha, m, r, evs[0]), evs[1..]);
    }
  }

  /** While the part file is in place, finishing does what finalizing a full store does. */
  lemma FinishFinalizes(sha: bytes -> string, m: Manifest, r: Incoming, received: set<u32>)
    requires r.finishing > 0 && r.partExists && HasAll(m, Store(r.file, received))
    ensures var after := OnFinish(sha, m, r);
      && after.results == r.results + [Finalize(sha, m, Store(r.file, received))]
      && after.completed && !after.partExists && after.finishing == r.finishing - 1
  {
  }
}
