/** The life of one incoming file in the engine. */
module IncomingFiles {
  import opened Bytes
  import opened Chunks
  import opened ChunkReceiving

  /** All receivers of a transfer write to one part file, `file`. `active` are the ids received by the
      one that is listed, `finishing` counts those that have all chunks and are not yet hashed,
      `completed` says whether the transfer is listed as completed, and `partExists` whether the part
      file still has its name. */
  datatype Incoming = Incoming(
    file: bytes, active: Option<set<u32>>, finishing: nat, completed: bool, partExists: bool,
    results: seq<Result<bytes>>)

  const NoOffer := Incoming([], None, 0, false, false, [])

  /** An offer is taken unless the file is under way or completed; an empty file is complete at once.
      Between the last chunk and the listing as completed the file is neither. */
  function OnOffer(m: Manifest, r: Incoming): Incoming {
    if r.active.Some? || r.completed || Validate(m).Err? then r
    else
      var created := r.(file := EmptyStore(m).file, partExists := true);
      if m.totalChunks == 0 then created.(finishing := r.finishing + 1) else created.(active := Some({}))
  }

  ghost predicate StoreFits(m: Manifest, r: Incoming) {
    r.active.Some? ==> Fits(m, Store(r.file, r.active.value))
  }

  /** A chunk, and the ids acknowledged. After completion every chunk is acknowledged again. */
  function OnChunk(m: Manifest, r: Incoming, id: u32, data: bytes): (Incoming, Option<seq<u32>>)
    requires StoreFits(m, r)
  {
    if r.active.None? then (r, if r.completed then Some([id]) else None)
    else
      var (t, ok) := Receive(m, Store(r.file, r.active.value), id, data);
      if !ok then (r, None)
      else if HasAll(m, t) then (r.(file := t.file, active := None, finishing := r.finishing + 1), Some([id]))
      else (r.(file := t.file, active := Some(t.received)), Some([id]))
  }

  /** A complete receiver is hashed: the part file is moved into place or removed. */
  function OnFinish(sha: bytes -> string, m: Manifest, r: Incoming): Incoming {
    if r.finishing == 0 then r
    else
      var result :=
        if sha(r.file) != Lower(m.sha256) then Err("checksum mismatch")
        else if !r.partExists then Err("part file is gone")
        else Ok(r.file);
      r.(finishing := r.finishing - 1, completed := true, partExists := false, results := r.results + [result])
  }

  class IncomingFile {
    const manifest: Manifest
    var part: array?<byte>
    var receiver: ChunkedReceiver?
    var finishing: nat
    var completed: bool
    var partExists: bool
    var results: seq<Result<bytes>>

    ghost predicate Valid()
      reads this, receiver, part
    {
      && (part != null ==> part.Length == manifest.totalSize)
      && (finishing > 0 ==> part != null)
      && (receiver != null ==> receiver.file == part && receiver.manifest == manifest && receiver.Valid())
    }

    ghost function St(): Incoming
      reads this, receiver, part
    {
      Incoming(if part == null then [] else part[..], if receiver == null then None else Some(receiver.received),
               finishing, completed, partExists, results)
    }

    constructor (m: Manifest)
      ensures Valid() && St() == NoOffer && manifest == m
    {
      manifest := m;
      part, receiver, finishing, completed, partExists, results := null, null, 0, false, false, [];
    }

    method HandleOffer()
      requires Valid()
      modifies this, part
      ensures Valid() && St() == OnOffer(manifest, old(St()))
    {
      if receiver != null || completed {
        return;
      }
      var created := ChunkedReceiver.Create(manifest, part);
      if created.Err? {
        return;
      }
      part, partExists := created.value.file, true;
      if |created.value.received| == manifest.totalChunks {
        finishing := finishing + 1;
      } else {
        receiver := created.value;
      }
    }

    method HandleChunk(id: u32, data: bytes) returns (ack: Option<seq<u32>>)
      requires Valid()
      modifies this, receiver, part
      ensures Valid() && (St(), ack) == OnChunk(manifest, old(St()), id, data)
    {
      if receiver == null {
        return if completed then Some([id]) else None;
      }
      var ok := receiver.ReceiveChunk(id, data);
      if !ok {
        return None;
      }
      if |receiver.received| == manifest.totalChunks {
        finishing, receiver := finishing + 1, null;
      }
      return Some([id]);
    }

    method FinishIncoming(sha: bytes -> string)
      requires Valid()
      modifies this
      ensures Valid() && St() == OnFinish(sha, manifest, old(St()))
    {
      if finishing == 0 {
        return;
      }
      finishing, completed := finishing - 1, true;
      if sha(part[..]) != Lower(manifest.sha256) {
        partExists, results := false, results + [Err("checksum mismatch")];
      } else if !partExists {
        results := results + [Err("part file is gone")];
      } else {
        partExists, results := false, results + [Ok(part[..])];
      }
    }
  }
}
