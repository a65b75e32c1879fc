/** How a file is divided into chunks. */
module Chunks {
  import opened Bytes

  const MAX_CHUNK_SIZE := 1024 * 1024
  const MAX_TRANSFER_BYTES := 64 * 1024 * 1024 * 1024
  const SHA_HEX_LEN := 64

  datatype Manifest = Manifest(totalSize: nat, chunkSize: nat, totalChunks: u32, sha256: string)

  function DivCeil(n: nat, d: nat): nat
    requires d > 0
  {
    n / d + if n % d > 0 then 1 else 0
  }

  predicate IsHexDigit(c: char) {
    '0' <= c <= '9' || 'a' <= c <= 'f' || 'A' <= c <= 'F'
  }

  predicate HexSha(s: string) {
    |s| == SHA_HEX_LEN && forall i :: 0 <= i < |s| ==> IsHexDigit(s[i])
  }

  function Validate(m: Manifest): Result<Unit> {
    if m.chunkSize == 0 || m.chunkSize > MAX_CHUNK_SIZE then Err("chunk size")
    else if m.totalSize > MAX_TRANSFER_BYTES then Err("file too large")
    else if DivCeil(m.totalSize, m.chunkSize) != m.totalChunks then Err("chunk count")
    else if !HexSha(m.sha256) then Err("bad sha256")
    else Ok(Unit)
  }

  /** The sender's manifest: the chunk size within limits, the chunk count cut to 32 bits. */
  function MakeManifest(totalSize: nat, chunkSize: nat, sha256: string): Manifest {
    var size := if chunkSize < 1 then 1 else if chunkSize > MAX_CHUNK_SIZE then MAX_CHUNK_SIZE else chunkSize;
    Manifest(totalSize, size, DivCeil(totalSize, size) % 0x1_0000_0000, sha256)
  }

  /** The first byte of a chunk. */
  function Offset(m: Manifest, id: nat): nat {
    id * m.chunkSize
  }

  /** No chunk starts at or past the end: true of every manifest of a sender or an accepted offer. */
  predicate WithinFile(m: Manifest) {
    m.chunkSize > 0 && m.totalChunks <= DivCeil(m.totalSize, m.chunkSize)
  }

  function ChunkLen(m: Manifest, id: nat): nat
    requires WithinFile(m) && id < m.totalChunks
  {
    OffsetWithin(m, id);
    var left := m.totalSize - Offset(m, id);
    if left < m.chunkSize then left else m.chunkSize
  }

  // ---- Arithmetic ----

  lemma TimesMonotone(a: nat, b: nat, d: nat)
    requires a <= b
    ensures a * d <= b * d
  {
  }

  lemma TimesNext(a: nat, d: nat)
    ensures (a + 1) * d == a * d + d
  {
  }

  lemma DivBounds(n: nat, d: nat)
    requires d > 0
    ensures n / d * d <= n < n / d * d + d
    ensures n == n / d * d + n % d
  {
  }

  lemma CeilBounds(n: nat, d: nat)
    requires d > 0
    ensures n <= DivCeil(n, d) * d < n + d
  {
    DivBounds(n, d);
    TimesNext(n / d, d);
  }

  lemma OffsetWithin(m: Manifest, id: nat)
    requires WithinFile(m) && id < m.totalChunks
    ensures Offset(m, id) < m.totalSize
  {
    CeilBounds(m.totalSize, m.chunkSize);
    TimesMonotone(id + 1, DivCeil(m.totalSize, m.chunkSize), m.chunkSize);
    TimesNext(id, m.chunkSize);
  }

  lemma {:induction false} QuotientUnique(p: nat, q: nat, d: nat)
    requires d > 0 && q * d <= p < q * d + d
    ensures p / d == q
  {
    DivBounds(p, d);
    var r := p / d;
    if r < q {
      TimesMonotone(r + 1, q, d);
      TimesNext(r, d);
    } else if r > q {
      TimesMonotone(q + 1, r, d);
      TimesNext(q, d);
    }
  }

  // ---- Geometry ----

  predicate InChunk(m: Manifest, id: nat, p: nat)
    requires WithinFile(m) && id < m.totalChunks
  {
    Offset(m, id) <= p < Offset(m, id) + ChunkLen(m, id)
  }

  /** Every chunk is non-empty and no longer than the chunk size, lies within the file, and the next
      one begins where it ends; all but the last are full. */
  lemma ChunkShape(m: Manifest, id: nat)
    requires WithinFile(m) && id < m.totalChunks
    ensures 0 < ChunkLen(m, id) <= m.chunkSize
    ensures Offset(m, id) + ChunkLen(m, id) <= m.totalSize
    ensures id + 1 < m.totalChunks ==>
      ChunkLen(m, id) == m.chunkSize && Offset(m, id) + ChunkLen(m, id) == Offset(m, id + 1)
  {
    OffsetWithin(m, id);
    if id + 1 < m.totalChunks {
      OffsetWithin(m, id + 1);
      TimesNext(id, m.chunkSize);
    }
  }

  /** The chunks of an accepted offer divide the file: each byte is in exactly one of them, and no
      chunk holds anything else. */
  lemma ChunksPartitionFile(m: Manifest, p: nat)
    requires Validate(m).Ok?
    ensures p < m.totalSize <==> exists id: nat :: id < m.totalChunks && InChunk(m, id, p)
    ensures forall id: nat, id': nat ::
      id < m.totalChunks && id' < m.totalChunks && InChunk(m, id, p) && InChunk(m, id', p) ==> id == id'
  {
    if p < m.totalSize {
      ByteInChunk(m, p);
    }
    forall id: nat | id < m.totalChunks && InChunk(m, id, p) ensures id == p / m.chunkSize && p < m.totalSize {
      ChunkShape(m, id);
      QuotientUnique(p, id, m.chunkSize);
    }
  }

  lemma ByteInChunk(m: Manifest, p: nat)
    requires m.chunkSize > 0 && m.totalChunks == DivCeil(m.totalSize, m.chunkSize) && p < m.totalSize
    ensures var id := p / m.chunkSize;
      id < m.totalChunks && InChunk(m, id, p)
  {
    var id := p / m.chunkSize;
    DivBounds(p, m.chunkSize);
    CeilBounds(m.totalSize, m.chunkSize);
    if id >= m.totalChunks {
      TimesMonotone(m.totalChunks, id, m.chunkSize);
    }
    OffsetWithin(m, id);
  }

  /** What a sender offers is accepted exactly when the file is within the limit and its chunk count
      fits 32 bits. */
  lemma SenderManifestValidIff(totalSize: nat, chunkSize: nat, sha256: string)
    requires HexSha(sha256)
    ensures var m := MakeManifest(totalSize, chunkSize, sha256);
      && WithinFile(m)
      && (Validate(m).Ok? <==> totalSize <= MAX_TRANSFER_BYTES && DivCeil(totalSize, m.chunkSize) < 0x1_0000_0000)
  {
  }

  lemma CeilUnique(n: nat, d: nat, k: nat)
    requires d > 0 && n <= k * d < n + d
    ensures k == DivCeil(n, d)
  {
    var c := DivCeil(n, d);
    CeilBounds(n, d);
    if k < c {
      TimesMonotone(k + 1, c, d);
      TimesNext(k, d);
    } else if c < k {
      TimesMonotone(c + 1, k, d);
      TimesNext(c, d);
    }
  }

  /** From anyone, exactly those offers are accepted that have chunks of 1 byte to 1 MiB, at most 64 GiB,
      just as many chunks as hold the file, and 64 hexadecimal digits for a hash. */
  lemma AcceptedIff(m: Manifest)
    ensures Validate(m).Ok? <==>
      && 1 <= m.chunkSize <= 1_048_576 && m.totalSize <= 68_719_476_736
      && m.totalSize <= m.totalChunks * m.chunkSize < m.totalSize + m.chunkSize
      && |m.sha256| == 64
      && forall i :: 0 <= i < 64 ==> m.sha256[i] in "0123456789abcdefABCDEF"
  {
    if m.chunkSize > 0 {
      CeilBounds(m.totalSize, m.chunkSize);
      if m.totalSize <= m.totalChunks * m.chunkSize < m.totalSize + m.chunkSize {
        CeilUnique(m.totalSize, m.chunkSize, m.totalChunks);
      }
    }
    forall c: char ensures IsHexDigit(c) <==> c in "0123456789abcdefABCDEF" { HexDigits(c); }
  }

  lemma HexDigits(c: char)
    ensures IsHexDigit(c) <==> c in "0123456789abcdefABCDEF"
  {
    var all := "0123456789abcdefABCDEF";
    if '0' <= c <= '9' {
      assert all[c as int - '0' as int] == c;
    } else if 'a' <= c <= 'f' {
      assert all[10 + c as int - 'a' as int] == c;
    } else if 'A' <= c <= 'F' {
      assert all[16 + c as int - 'A' as int] == c;
    }
  }

  /** A sender's chunks are of the size asked for, from 1 byte to 1 MiB, and as many as hold the file,
      mod 2^32. */
  lemma SenderManifestIs(totalSize: nat, chunkSize: nat, sha256: string) returns (chunks: nat)
    ensures var m := MakeManifest(totalSize, chunkSize, sha256);
      && m.totalSize == totalSize && m.sha256 == sha256
      && m.chunkSize == (if chunkSize == 0 then 1 else if chunkSize <= 1_048_576 then chunkSize else 1_048_576)
      && totalSize <= chunks * m.chunkSize < totalSize + m.chunkSize && m.totalChunks == chunks % 0x1_0000_0000
  {
    var m := MakeManifest(totalSize, chunkSize, sha256);
    chunks := DivCeil(totalSize, m.chunkSize);
    CeilBounds(totalSize, m.chunkSize);
  }
}
