/** The receiving side: chunks are written where they belong, once each. */
module ChunkReceiving {
  import opened Bytes
  import opened Chunks
  import opened ChunkSending

  datatype Store = Store(file: bytes, received: set<u32>)

  function Zeros(n: nat): (r: bytes)
    ensures |r| == n && forall i :: 0 <= i < n ==> r[i] == 0
  {
    seq(n, _ => 0)
  }

  function EmptyStore(m: Manifest): Store {
    Store(Zeros(m.totalSize), {})
  }

  function Written(file: bytes, start: nat, data: bytes): bytes
    requires start + |data| <= |file|
  {
    file[..start] + data + file[start + |data|..]
  }

  predicate Fits(m: Manifest, s: Store) {
    WithinFile(m) && |s.file| == m.totalSize
  }

  /** What a chunk does to the file, and whether it is accepted. */
  function Receive(m: Manifest, s: Store, id: u32, data: bytes): (Store, bool)
    requires Fits(m, s)
  {
    if id >= m.totalChunks || |data| != ChunkLen(m, id) then (s, false)
    else if id in s.received then (s, true)
    else
      ChunkShape(m, id);
      (Store(Written(s.file, Offset(m, id), data), s.received + {id}), true)
  }

  predicate HasAll(m: Manifest, s: Store) {
    |s.received| == m.totalChunks
  }

  function Lower(s: string): (r: string)
    ensures |r| == |s|
  {
    seq(|s|, i requires 0 <= i < |s| => if 'A' <= s[i] <= 'Z' then s[i] - 'A' + 'a' else s[i])
  }

  /** The finished file, if it is all there and has the hash promised; `sha` is the hash function. */
  function Finalize(sha: bytes -> string, m: Manifest, s: Store): Result<bytes> {
    if !HasAll(m, s) then Err("transfer incomplete")
    else if sha(s.file) != Lower(m.sha256) then Err("checksum mismatch")
    else Ok(s.file)
  }

  /** Every byte of a received chunk is the byte of the source. */
  ghost predicate Holds(m: Manifest, data: bytes, s: Store) {
    && Validate(m).Ok? && |data| == m.totalSize && |s.file| == m.totalSize
    && (forall id :: id in s.received ==> id < m.totalChunks)
    && forall p: nat :: p < m.totalSize && ChunkOf(m, p) in s.received ==> s.file[p] == data[p]
  }

  function ChunkOf(m: Manifest, p: nat): nat
    requires m.chunkSize > 0
  {
    p / m.chunkSize
  }

  lemma WrittenAt(file: bytes, start: nat, data: bytes, p: nat)
    requires start + |data| <= |file| && p < |file|
    ensures |Written(file, start, data)| == |file|
    ensures Written(file, start, data)[p] == if start <= p < start + |data| then data[p - start] else file[p]
  {
  }

  lemma InChunkIff(m: Manifest, id: nat, p: nat)
    requires Validate(m).Ok? && id < m.totalChunks && p < m.totalSize
    ensures InChunk(m, id, p) <==> ChunkOf(m, p) == id
  {
    ByteInChunk(m, p);
    ChunkShape(m, id);
    if InChunk(m, id, p) {
      QuotientUnique(p, id, m.chunkSize);
    }
  }

  /** A chunk of the source, whether new or received before, leaves the file right. */
  lemma ReceiveKeepsHolds(m: Manifest, data: bytes, s: Store, id: u32)
    requires Holds(m, data, s) && id < m.totalChunks
    ensures var (t, ok) := Receive(m, s, id, Content(m, data, id));
      ok && Holds(m, data, t) && t.received == s.received + {id}
  {
    ChunkShape(m, id);
    var chunk, start := Content(m, data, id), Offset(m, id);
    var (t, _) := Receive(m, s, id, chunk);
    if id !in s.received {
      forall p: nat | p < m.totalSize && ChunkOf(m, p) in t.received ensures t.file[p] == data[p] {
        WrittenAt(s.file, start, chunk, p);
        InChunkIff(m, id, p);
      }
      assert |t.file| == m.totalSize;
    }
  }

  /** Once all chunks are there, the file is the source. */
  lemma CompleteFileIsSource(m: Manifest, data: bytes, s: Store)
    requires Holds(m, data, s) && HasAll(m, s)
    ensures s.file == data
  {
    BelowBound(s.received, m.totalChunks);
    forall p: nat | p < m.totalSize ensures s.file[p] == data[p] {
      ByteInChunk(m, p);
    }
  }

  // ---- Whatever anyone sends ----

  /** A chunk is taken exactly if its number exists and it has the length of that place in the file; taken
      for the first time it is written there and nowhere else, otherwise nothing changes. */
  lemma TakenIff(m: Manifest, s: Store, id: u32, data: bytes)
    requires Fits(m, s)
    ensures var (t, ok) := Receive(m, s, id, data);
      var start := id * m.chunkSize;
      && (ok <==> id < m.totalChunks && |data| == if m.totalSize - start < m.chunkSize then m.totalSize - start else m.chunkSize)
      && (!ok || id in s.received ==> t == s)
      && (ok && id !in s.received ==>
            && t.received == s.received + {id} && |t.file| == |s.file|
            && forall p :: 0 <= p < |s.file| ==>
                 t.file[p] == if start <= p < start + |data| then data[p - start] else s.file[p])
  {
    if id < m.totalChunks {
      ChunkShape(m, id);
      if |data| == ChunkLen(m, id) {
        forall p | 0 <= p < |s.file| { WrittenAt(s.file, Offset(m, id), data, p); }
      }
    }
  }

  /** What is handed over has the hash offered, in either case of its letters, and lacks no chunk. */
  lemma FinalizedIff(sha: bytes -> string, m: Manifest, s: Store)
    requires WithinFile(m) && forall id :: id in s.received ==> id < m.totalChunks
    ensures Finalize(sha, m, s).Ok? <==>
      (forall id: u32 :: id < m.totalChunks ==> id in s.received) && sha(s.file) == Lower(m.sha256)
    ensures Finalize(sha, m, s).Ok? ==> Finalize(sha, m, s).value == s.file
  {
    BelowBound(s.received, m.totalChunks);
  }

  /** Letters are compared without their case. */
  lemma LowerIs(s: string, i: nat)
    requires i < |s|
    ensures Lower(s)[i] == if s[i] in "ABCDEFGHIJKLMNOPQRSTUVWXYZ" then (s[i] as int + 32) as char else s[i]
  {
    var all := "ABCDEFGHIJKLMNOPQRSTUVWXYZ";
    if 'A' <= s[i] <= 'Z' {
      assert all[s[i] as int - 'A' as int] == s[i];
    }
  }

  class ChunkedReceiver {
    const manifest: Manifest
    const file: array<byte>
    var received: set<u32>

    ghost function St(): Store
      reads this, file
    {
      Store(file[..], received)
    }

    ghost predicate Valid()
      reads this, file
    {
      && Validate(manifest).Ok? && Fits(manifest, St())
      && forall id :: id in received ==> id < manifest.totalChunks
    }

    /** A receiver of an empty file, the content of which is `part`. */
    constructor (m: Manifest, part: array<byte>)
      requires Validate(m).Ok? && part.Length == m.totalSize && part[..] == EmptyStore(m).file
      ensures Valid() && file == part && manifest == m && St() == EmptyStore(m)
    {
      manifest := m;
      file := part;
      received := {};
    }

    /** The offer is checked before anything is created. A part file that is there already is emptied,
        under the hands of whoever else has it open. */
    static method Create(m: Manifest, part: array?<byte>) returns (r: Result<ChunkedReceiver>)
      requires part != null ==> part.Length == m.totalSize
      modifies if part == null then {} else {part}
      ensures r.Ok? <==> Validate(m).Ok?
      ensures r.Ok? ==> fresh(r.value) && r.value.Valid() && r.value.manifest == m && r.value.St() == EmptyStore(m)
      ensures r.Ok? ==> if part == null then fresh(r.value.file) else r.value.file == part
      ensures r.Err? && part != null ==> part[..] == old(part[..])
    {
      var valid := Validate(m);
      if valid.Err? {
        return Err(valid.error);
      }
      var file: array<byte>;
      if part == null {
        file := new byte[m.totalSize](_ => 0);
      } else {
        file := part;
        for i := 0 to file.Length
          invariant forall j :: 0 <= j < i ==> file[j] == 0
        {
          file[i] := 0;
        }
      }
      assert file[..] == EmptyStore(m).file;
      var receiver := new ChunkedReceiver(m, file);
      return Ok(receiver);
    }

    method ReceiveChunk(id: u32, data: bytes) returns (ok: bool)
      requires Valid()
      modifies this, file
      ensures Valid() && (St(), ok) == Receive(manifest, old(St()), id, data)
    {
      if id >= manifest.totalChunks || |data| != ChunkLen(manifest, id) {
        return false;
      }
      if id in received {
        return true;
      }
      ChunkShape(manifest, id);
      WriteAt(id * manifest.chunkSize, data);
      received := received + {id};
      return true;
    }

    method WriteAt(start: nat, data: bytes)
      requires start + |data| <= file.Length
      modifies file
      ensures file[..] == Written(old(file[..]), start, data)
    {
      for k := 0 to |data|
        invariant forall p :: 0 <= p < file.Length ==>
          file[p] == if start <= p < start + k then data[p - start] else old(file[p])
      {
        file[start + k] := data[k];
      }
    }

    method IsComplete() returns (complete: bool)
      requires Valid()
      ensures complete <==> forall id: u32 :: id < manifest.totalChunks ==> id in received
    {
      BelowBound(received, manifest.totalChunks);
      complete := |received| == manifest.totalChunks;
    }

    method FinalizeFile(sha: bytes -> string) returns (r: Result<bytes>)
      requires Valid()
      ensures r == Finalize(sha, manifest, St())
    {
      if |received| != manifest.totalChunks {
        return Err("transfer incomplete");
      }
      if sha(file[..]) != Lower(manifest.sha256) {
        return Err("checksum mismatch");
      }
      return Ok(file[..]);
    }
  }
}
