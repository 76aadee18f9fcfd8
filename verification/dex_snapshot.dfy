/** Chunked export and import of the state, in uint32 arithmetic. */
module DexSnapshot {
  import opened Encoding
  import opened DexState

  const FORMAT: Uint32 := 1
  const CHUNK: Uint32 := 65536

  /** The longest encoding that exports completely. */
  const LIMIT: int := TWO32 - CHUNK

  datatype Chunk = Chunk(index: Uint32, data: Bytes)
  datatype Descriptor = Descriptor(height: Uint64, format: Uint32, chunks: Uint32, hash: Digest)

  datatype ImportResult =
    | ImportOk(appHash: Digest)
    | ImportReject
    | ImportRetry(indices: seq<Uint32>)

  // ----- Export -----

  function ChunkCount(data: Bytes): Uint32 {
    Wrap32(Wrap32(|data|) + CHUNK - 1) / CHUNK
  }

  function Start(i: Uint32): Uint32 { Wrap32(i * CHUNK) }

  function End(data: Bytes, i: Uint32): Uint32 {
    var end := Wrap32(Start(i) + CHUNK);
    if end > |data| then Wrap32(|data|) else end
  }

  /** The count is the ceiling of the quotient up to LIMIT. Above it the sum wraps. */
  lemma ChunkCountValue(data: Bytes)
    ensures ChunkCount(data) * CHUNK < TWO32 + CHUNK - 1 && ChunkCount(data) <= 65535
    ensures |data| <= LIMIT ==> |data| <= ChunkCount(data) * CHUNK < |data| + CHUNK
    ensures LIMIT < |data| < TWO32 ==> ChunkCount(data) == 0
    ensures ChunkCount(data) > 0 ==> (ChunkCount(data) - 1) * CHUNK < Wrap32(|data|) <= |data|
  {
    var n := Wrap32(|data|);
    assert n <= |data|;
    if |data| < TWO32 {
      assert n == |data|;
    }
    var sum := Wrap32(n + CHUNK - 1);
    assert sum == if n + CHUNK - 1 < TWO32 then n + CHUNK - 1 else n + CHUNK - 1 - TWO32;
    assert ChunkCount(data) == sum / CHUNK;
    assert sum / CHUNK * CHUNK <= sum < sum / CHUNK * CHUNK + CHUNK;
  }

  /** Slicing never panics: the bounds of every exported chunk are in order. */
  lemma SliceInRange(data: Bytes, i: Uint32)
    requires i < ChunkCount(data)
    ensures Start(i) == i * CHUNK <= End(data, i) <= |data|
    ensures End(data, i) == if (i + 1) * CHUNK > |data| then |data| else (i + 1) * CHUNK
  {
    hide ChunkCount;
    ChunkCountValue(data);
    assert i <= 65534;
    assert (i + 1) * CHUNK == i * CHUNK + CHUNK < TWO32;
  }

  function ChunkAt(data: Bytes, i: Uint32): Chunk
    requires i < ChunkCount(data)
  {
    SliceInRange(data, i);
    Chunk(i, data[Start(i)..End(data, i)])
  }

  function Exported(data: Bytes, n: nat): (chunks: seq<Chunk>)
    requires n <= ChunkCount(data)
    ensures |chunks| == n
  {
    if n == 0 then [] else Exported(data, n - 1) + [ChunkAt(data, n - 1)]
  }

  function Joined(chunks: seq<Chunk>): Bytes {
    if chunks == [] then [] else Joined(chunks[..|chunks| - 1]) + chunks[|chunks| - 1].data
  }

  method ExportChunks(data: Bytes) returns (chunks: seq<Chunk>)
    ensures chunks == Exported(data, ChunkCount(data))
  {
    chunks := [];
    var nChunks := Wrap32(Wrap32(|data|) + CHUNK - 1) / CHUNK;
    var i: Uint32 := 0;
    while i < nChunks
      invariant i <= nChunks == ChunkCount(data)
      invariant chunks == Exported(data, i)
    {
      SliceInRange(data, i);
      var start := Wrap32(i * CHUNK);
      var end := Wrap32(start + CHUNK);
      if end > |data| {
        end := Wrap32(|data|);
      }
      chunks := chunks + [Chunk(i, data[start..end])];
      i := i + 1;
    }
  }

  function AtMostLength(n: nat, data: Bytes): nat { if n < |data| then n else |data| }

  /** One more chunk continues the joined bytes. */
  lemma JoinedAppend(chunks: seq<Chunk>, last: Chunk)
    ensures Joined(chunks + [last]) == Joined(chunks) + last.data
  {
    assert (chunks + [last])[..|chunks|] == chunks;
  }

  lemma ChunkData(data: Bytes, i: Uint32)
    requires i < ChunkCount(data)
    ensures i * CHUNK <= AtMostLength((i + 1) * CHUNK, data)
    ensures ChunkAt(data, i).data == data[i * CHUNK..AtMostLength((i + 1) * CHUNK, data)]
  {
    hide ChunkCount;
    SliceInRange(data, i);
    hide Start, End;
  }

  lemma {:induction false} ExportedPrefix(data: Bytes, n: nat)
    requires n <= ChunkCount(data)
    ensures Joined(Exported(data, n)) == data[..AtMostLength(n * CHUNK, data)]
  {
    hide ChunkCount, ChunkAt, Joined;
    if n == 0 {
      NothingJoined();
    } else {
      ExportedPrefix(data, n - 1);
      ChunkData(data, n - 1);
      JoinedAppend(Exported(data, n - 1), ChunkAt(data, n - 1));
      var lo, hi := (n - 1) * CHUNK, AtMostLength(n * CHUNK, data);
      assert data[..lo] + data[lo..hi] == data[..hi];
    }
  }

  lemma NothingJoined()
    ensures Joined([]) == []
  {
  }

  /** The exported chunks make up the data exactly when it is at most 2^32 - 65536 bytes long. */
  lemma ExportComplete(data: Bytes)
    ensures Joined(Exported(data, ChunkCount(data))) == data <==> |data| <= LIMIT
  {
    var n := ChunkCount(data);
    ExportedPrefix(data, n);
    ChunkCountValue(data);
    hide ChunkCount;
    if |data| <= LIMIT {
      assert data[..|data|] == data;
    } else if |data| >= TWO32 {
      assert n * CHUNK <= 65535 * CHUNK < TWO32;
    }
  }

  // ----- Import -----

  /** The chunks by index; a later delivery of an index replaces an earlier one. */
  function Received(delivered: seq<Chunk>): map<Uint32, Bytes> {
    if delivered == [] then map[]
    else
      var last := delivered[|delivered| - 1];
      Received(delivered[..|delivered| - 1])[last.index := last.data]
  }

  /** The indices below n that did not arrive. */
  function Missing(received: map<Uint32, Bytes>, n: Uint32): seq<Uint32> {
    if n == 0 then []
    else Missing(received, n - 1) + if n - 1 in received then [] else [n - 1]
  }

  /** The chunks below n in order; a missing one contributes nothing. */
  function Assembled(received: map<Uint32, Bytes>, n: Uint32): Bytes {
    if n == 0 then []
    else Assembled(received, n - 1) + if n - 1 in received then received[n - 1] else []
  }

  datatype Imported = Imported(state: State, result: ImportResult)

  function Import(c: Codecs, current: State, d: Descriptor, delivered: seq<Chunk>): Imported {
    var received := Received(delivered);
    if d.format != FORMAT then Imported(current, ImportReject)
    else if Wrap32(|received|) != d.chunks then Imported(current, ImportRetry(Missing(received, d.chunks)))
    else
      var full := Assembled(received, d.chunks);
      if c.sha256(full) != d.hash then Imported(current, ImportReject)
      else
        match c.decodeState(full)
        case None => Imported(current, ImportReject)
        case Some(s) => Imported(s, ImportOk(AppHash(c, s)))
  }

  method CollectChunks(delivered: seq<Chunk>) returns (received: map<Uint32, Bytes>)
    ensures received == Received(delivered)
  {
    received := map[];
    for i := 0 to |delivered|
      invariant received == Received(delivered[..i])
    {
      assert delivered[..i + 1][..i] == delivered[..i];
      received := received[delivered[i].index := delivered[i].data];
    }
    assert delivered[..|delivered|] == delivered;
  }

  method ListMissing(received: map<Uint32, Bytes>, n: Uint32) returns (missing: seq<Uint32>)
    ensures missing == Missing(received, n)
  {
    missing := [];
    var i: Uint32 := 0;
    while i < n
      invariant i <= n && missing == Missing(received, i)
    {
      if i !in received {
        missing := missing + [i];
      }
      i := i + 1;
    }
  }

  method Assemble(received: map<Uint32, Bytes>, n: Uint32) returns (full: Bytes)
    ensures full == Assembled(received, n)
  {
    full := [];
    var i: Uint32 := 0;
    while i < n
      invariant i <= n && full == Assembled(received, i)
    {
      full := full + if i in received then received[i] else [];
      i := i + 1;
    }
  }

  /** The decision part of ImportSnapshot: the state to install, if any, and the reply. */
  method DecideImport(c: Codecs, d: Descriptor, delivered: seq<Chunk>) returns (s: Option<State>, result: ImportResult)
    ensures forall current :: Import(c, current, d, delivered) == Imported(if s.Some? then s.value else current, result)
    ensures s.Some? <==> result.ImportOk?
    ensures s.Some? && StateCodec(c) ==> Portable(s.value)
  {
    if d.format != FORMAT {
      return None, ImportReject;
    }
    var received := CollectChunks(delivered);
    if Wrap32(|received|) != d.chunks {
      var missing := ListMissing(received, d.chunks);
      return None, ImportRetry(missing);
    }
    var full := Assemble(received, d.chunks);
    if c.sha256(full) != d.hash {
      return None, ImportReject;
    }
    s := c.decodeState(full);
    if s.None? {
      return None, ImportReject;
    }
    result := ImportOk(AppHash(c, s.value));
  }
}
