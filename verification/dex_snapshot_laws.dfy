/** What state sync guarantees: exact retry lists, the round trip with its bounds, and that a
    bootstrapped node follows its peer. */
module DexSnapshotLaws {
  import opened Encoding
  import opened DexState
  import opened DexReachable
  import opened DexSnapshot

  // ----- Retry lists -----

  predicate Ascending(s: seq<Uint32>) {
    forall j, k | 0 <= j < k < |s| :: s[j] < s[k]
  }

  lemma AscendingAppend(s: seq<Uint32>, x: Uint32)
    requires Ascending(s) && forall y | y in s :: y < x
    ensures Ascending(s + [x])
  {
    assert forall k | 0 <= k < |s| :: s[k] in s;
  }

  lemma {:induction false} MissingAscends(received: map<Uint32, Bytes>, n: Uint32)
    ensures Ascending(Missing(received, n))
    ensures forall i: Uint32 :: i in Missing(received, n) <==> i < n && i !in received
  {
    if n > 0 {
      var front := Missing(received, n - 1);
      MissingAscends(received, n - 1);
      if n - 1 !in received {
        hide Ascending;
        AscendingAppend(front, n - 1);
      } else {
        assert Missing(received, n) == front;
      }
    }
  }

  lemma MissingExact(received: map<Uint32, Bytes>, n: Uint32)
    ensures var m := Missing(received, n);
            && (forall i: Uint32 :: i in m <==> i < n && i !in received)
            && (forall j, k | 0 <= j < k < |m| :: m[j] < m[k])
  {
    hide Missing;
    MissingAscends(received, n);
  }

  function Range(n: Uint32): (r: set<Uint32>)
    ensures |r| == n && forall i: Uint32 :: i in r <==> i < n
  {
    if n == 0 then {} else Range(n - 1) + {n - 1}
  }

  lemma NothingMissing(received: map<Uint32, Bytes>, n: Uint32)
    ensures Missing(received, n) == [] <==> Range(n) <= received.Keys
  {
    MissingExact(received, n);
    var m := Missing(received, n);
    if m == [] {
      forall i | i in Range(n) ensures i in received.Keys {
        assert i in m <==> i !in received;
      }
    } else {
      assert m[0] in m && m[0] in Range(n);
    }
  }

  /** Pigeonhole: fewer distinct chunks than announced leave a gap. */
  lemma FewChunksLeaveGap(received: map<Uint32, Bytes>, n: Uint32)
    requires |received| < n
    ensures Missing(received, n) != []
  {
    NothingMissing(received, n);
    if Range(n) <= received.Keys {
      SubsetSize(Range(n), received.Keys);
    }
  }

  lemma SubsetSize<T>(a: set<T>, b: set<T>)
    requires a <= b
    ensures |a| <= |b|
  {
    assert b == a + (b - a);
  }

  /** A retry lists exactly the absent indices in increasing order. With fewer distinct chunks
      than announced the reply is a retry and its list is not empty. A retry with an empty list
      means that every announced chunk arrived, and others besides. */
  lemma RetryIsExact(c: Codecs, current: State, d: Descriptor, delivered: seq<Chunk>)
    ensures var received, r := Received(delivered), Import(c, current, d, delivered);
            && (r.result.ImportRetry? <==> d.format == FORMAT && Wrap32(|received|) != d.chunks)
            && (d.format == FORMAT && |received| < d.chunks ==> r.result.ImportRetry? && r.result.indices != [])
            && (r.result.ImportRetry? ==>
                && (forall i: Uint32 :: i in r.result.indices <==> i < d.chunks && i !in received)
                && (forall j, k | 0 <= j < k < |r.result.indices| :: r.result.indices[j] < r.result.indices[k])
                && (r.result.indices == [] <==> Range(d.chunks) <= received.Keys))
  {
    hide Received, Missing, Assembled, Range;
    var received := Received(delivered);
    MissingExact(received, d.chunks);
    NothingMissing(received, d.chunks);
    if |received| < d.chunks {
      FewChunksLeaveGap(received, d.chunks);
    }
  }

  /** The verdict of an import: a wrong format is rejected; then a wrong count of distinct chunks is
      answered by a retry; then a wrong hash or bytes that do not decode are rejected; else the
      decoded state is installed. */
  lemma ImportMeans(c: Codecs, current: State, d: Descriptor, delivered: seq<Chunk>)
    ensures var r, received := Import(c, current, d, delivered), Received(delivered);
            var full, complete := Assembled(received, d.chunks), |received| % 0x1_0000_0000 == d.chunks;
            && (d.format != 1 ==> r == Imported(current, ImportReject))
            && (d.format == 1 && !complete ==> r.state == current && r.result.ImportRetry?)
            && (d.format == 1 && complete ==>
                r == if c.sha256(full) != d.hash || c.decodeState(full).None? then Imported(current, ImportReject)
                     else var s := c.decodeState(full).value; Imported(s, ImportOk(c.sha256(c.encodeState(s)))))
  {
    hide Assembled, Received, Missing;
  }

  /** Of several deliveries of an index the last one counts, and nothing else is received. */
  lemma {:induction false} LastDeliveryCounts(delivered: seq<Chunk>, k: nat)
    requires k < |delivered| && forall j | k < j < |delivered| :: delivered[j].index != delivered[k].index
    ensures var r := Received(delivered); delivered[k].index in r && r[delivered[k].index] == delivered[k].data
  {
    var n := |delivered| - 1;
    if k < n {
      LastDeliveryCounts(delivered[..n], k);
    }
  }

  lemma {:induction false} OnlyDelivered(delivered: seq<Chunk>, i: Uint32)
    ensures i in Received(delivered) <==> exists k :: 0 <= k < |delivered| && delivered[k].index == i
  {
    if delivered != [] {
      var n := |delivered| - 1;
      OnlyDelivered(delivered[..n], i);
      assert forall k | 0 <= k < n :: delivered[..n][k] == delivered[k];
      if k :| 0 <= k < |delivered| && delivered[k].index == i && k < n {
        assert delivered[..n][k].index == i;
      }
    }
  }

  /** The chunks are put together in the order of their indices, an absent one as no bytes. */
  lemma AssembledStep(received: map<Uint32, Bytes>, n: Uint32)
    requires n + 1 < TWO32
    ensures Assembled(received, 0) == []
    ensures Assembled(received, n + 1) == Assembled(received, n) + if n in received then received[n] else []
  {
  }

  /** The slices of an export are 64 KiB long, the last one what remains. */
  lemma SlicesAre64K(data: Bytes, i: Uint32)
    requires i < ChunkCount(data)
    ensures 65536 * i <= |data| && |data| <= 65536 * (i + 1) ==> ChunkAt(data, i).data == data[65536 * i..]
    ensures 65536 * (i + 1) <= |data| ==> ChunkAt(data, i).data == data[65536 * i..65536 * (i + 1)]
    ensures ChunkAt(data, i).index == i && 65536 * i <= |data|
  {
    hide ChunkCount;
    SliceInRange(data, i);
  }

  /** The descriptor of a state whose encoding exports completely. */
  lemma DescribeMeans(c: Codecs, s: State)
    requires |c.encodeState(s)| <= 0x1_0000_0000 - 0x1_0000
    ensures var n := |c.encodeState(s)|;
            Describe(c, s) == Descriptor(s.height, 1, (n + 65535) / 65536, c.sha256(c.encodeState(s)))
  {
  }

  /** Success means that the assembled bytes have the announced hash and that their state was
      installed; any other reply leaves the state alone. */
  lemma OnlyVerifiedIsInstalled(c: Codecs, current: State, d: Descriptor, delivered: seq<Chunk>)
    ensures var r, full := Import(c, current, d, delivered), Assembled(Received(delivered), d.chunks);
            && (r.result.ImportOk? ==>
                c.sha256(full) == d.hash && c.decodeState(full) == Some(r.state)
                    && r.result.appHash == AppHash(c, r.state))
            && (!r.result.ImportOk? ==> r.state == current)
  {
  }

  // ----- Round trip -----

  /** Deliveries of an export: only its chunks, each at least once, in any order. */
  ghost predicate Delivers(data: Bytes, delivered: seq<Chunk>) {
    && (forall k | 0 <= k < |delivered| ::
          delivered[k].index < ChunkCount(data) && delivered[k] == ChunkAt(data, delivered[k].index))
    && (forall i: Uint32 | i < ChunkCount(data) :: ChunkAt(data, i) in delivered)
  }

  lemma {:induction false} ReceivedOnlyHonest(data: Bytes, delivered: seq<Chunk>)
    requires forall k | 0 <= k < |delivered| ::
               delivered[k].index < ChunkCount(data) && delivered[k] == ChunkAt(data, delivered[k].index)
    ensures var r := Received(delivered);
            forall i | i in r :: i < ChunkCount(data) && r[i] == ChunkAt(data, i).data
  {
    hide ChunkCount, ChunkAt;
    if delivered != [] {
      ReceivedOnlyHonest(data, delivered[..|delivered| - 1]);
    }
  }

  lemma {:induction false} ReceivedAll(delivered: seq<Chunk>, d: Chunk)
    requires d in delivered
    ensures d.index in Received(delivered)
  {
    var n := |delivered| - 1;
    assert delivered == delivered[..n] + [delivered[n]];
    if d != delivered[n] {
      ReceivedAll(delivered[..n], d);
    }
  }

  lemma {:induction false} AssembledIsJoined(data: Bytes, received: map<Uint32, Bytes>, n: Uint32)
    requires n <= ChunkCount(data)
    requires forall i: Uint32 | i < ChunkCount(data) :: i in received && received[i] == ChunkAt(data, i).data
    ensures Assembled(received, n) == Joined(Exported(data, n))
  {
    hide ChunkCount, ChunkAt;
    if n > 0 {
      AssembledIsJoined(data, received, n - 1);
      assert Exported(data, n)[..n - 1] == Exported(data, n - 1);
    }
  }

  lemma ReceivedRange(data: Bytes, delivered: seq<Chunk>)
    requires Delivers(data, delivered)
    ensures Received(delivered).Keys == Range(ChunkCount(data))
  {
    hide ChunkCount, ChunkAt, Received;
    ReceivedOnlyHonest(data, delivered);
    forall i: Uint32 | i < ChunkCount(data) ensures i in Received(delivered) {
      ReceivedAll(delivered, ChunkAt(data, i));
      ChunkIndex(data, i);
    }
  }

  /** Whatever the order and the repeats, an honest delivery counts all chunks and assembles
      what was exported. */
  lemma DeliveryAssembles(data: Bytes, delivered: seq<Chunk>)
    requires Delivers(data, delivered)
    ensures var received, n := Received(delivered), ChunkCount(data);
            |received| == n && Assembled(received, n) == Joined(Exported(data, n))
  {
    hide ChunkCount, ChunkAt;
    var received, n := Received(delivered), ChunkCount(data);
    ReceivedOnlyHonest(data, delivered);
    ReceivedRange(data, delivered);
    AssembledIsJoined(data, received, n);
  }

  lemma ChunkIndex(data: Bytes, i: Uint32)
    requires i < ChunkCount(data)
    ensures ChunkAt(data, i).index == i
  {
  }

  /** The descriptor that goes with an export of the state. */
  function Describe(c: Codecs, s: State): Descriptor {
    var data := c.encodeState(s);
    Descriptor(s.height, FORMAT, ChunkCount(data), c.sha256(data))
  }

  /** Importing an export restores the state exactly when the state is portable and its
      encoding is at most 2^32 - 65536 bytes long. Of the hash it is only used that the data and
      what was assembled do not collide. */
  lemma ImportRestores(c: Codecs, s: State, current: State, delivered: seq<Chunk>)
    requires StateCodec(c)
    requires Delivers(c.encodeState(s), delivered)
    requires var full, data := Assembled(Received(delivered), ChunkCount(c.encodeState(s))), c.encodeState(s);
             c.sha256(full) == c.sha256(data) ==> full == data
    ensures Import(c, current, Describe(c, s), delivered) == Imported(s, ImportOk(AppHash(c, s))) <==>
            Portable(s) && |c.encodeState(s)| <= LIMIT
  {
    hide ChunkCount, Portable, Assembled, Received, Wrap32;
    var data := c.encodeState(s);
    var n := ChunkCount(data);
    DeliveryAssembles(data, delivered);
    ExportComplete(data);
    assert Wrap32(n) == n by {
      SmallIs32(n);
    }
    if |data| <= LIMIT {
      ImportOfData(c, s, current, delivered);
    }
  }

  lemma SmallIs32(n: Uint32)
    ensures Wrap32(n) == n
  {
  }

  lemma ImportOfData(c: Codecs, s: State, current: State, delivered: seq<Chunk>)
    requires StateCodec(c)
    requires var data := c.encodeState(s);
             |Received(delivered)| == ChunkCount(data) && Assembled(Received(delivered), ChunkCount(data)) == data
    ensures Import(c, current, Describe(c, s), delivered) == Imported(s, ImportOk(AppHash(c, s))) <==> Portable(s)
  {
    hide ChunkCount, Portable, Assembled, Received;
    var data := c.encodeState(s);
    if c.decodeState(data).Some? {
      assert Portable(c.decodeState(data).value);
    }
  }

  // ----- Empty retries -----

  lemma OneTooMany(received: map<Uint32, Bytes>, n: Uint32, i: Uint32, b: Bytes)
    requires received.Keys == Range(n) && i >= n && n < 65536
    ensures Wrap32(|received[i := b]|) != n && Missing(received[i := b], n) == []
  {
    hide Missing;
    assert received[i := b].Keys == received.Keys + {i};
    SmallIs32(n + 1);
    NothingMissing(received[i := b], n);
  }

  /** An honest delivery with a chunk too many is answered by a retry that asks for nothing. */
  lemma StrayChunkEmptiesRetry(c: Codecs, s: State, current: State, delivered: seq<Chunk>, stray: Chunk)
    requires Delivers(c.encodeState(s), delivered) && stray.index >= ChunkCount(c.encodeState(s))
    ensures Import(c, current, Describe(c, s), delivered + [stray]) == Imported(current, ImportRetry([]))
  {
    hide ChunkCount, Received, Assembled, Delivers, Missing, Range, Wrap32;
    var data := c.encodeState(s);
    ReceivedAppend(delivered, stray);
    ReceivedRange(data, delivered);
    ChunkCountValue(data);
    OneTooMany(Received(delivered), ChunkCount(data), stray.index, stray.data);
  }

  lemma ReceivedAppend(delivered: seq<Chunk>, last: Chunk)
    ensures Received(delivered + [last]) == Received(delivered)[last.index := last.data]
  {
    assert (delivered + [last])[..|delivered|] == delivered;
  }

  /** The smallest case: no chunk is announced and one arrives. */
  lemma EmptyRetry(c: Codecs, current: State, height: Uint64, hash: Digest, chunk: Chunk)
    ensures Import(c, current, Descriptor(height, FORMAT, 0, hash), [chunk]).result == ImportRetry([])
  {
    ReceivedAppend([], chunk);
    assert [] + [chunk] == [chunk];
    assert |Received([chunk])| == 1;
    SmallIs32(1);
  }

  // ----- Bootstrapping -----

  lemma {:induction false} RunConcat(c: Codecs, s: State, a: seq<Block>, b: seq<Block>)
    ensures RunBlocks(c, s, a + b) == RunBlocks(c, RunBlocks(c, s, a), b)
    ensures RunOutcomes(c, s, a + b) == RunOutcomes(c, s, a) + RunOutcomes(c, RunBlocks(c, s, a), b)
  {
    hide ExecBlock;
    if b == [] {
      assert a + b == a;
    } else {
      var n := |b| - 1;
      RunConcat(c, s, a, b[..n]);
      assert (a + b)[..|a| + n] == a + b[..n];
      var mid := RunBlocks(c, s, a);
      var last := [ExecBlock(c, RunBlocks(c, mid, b[..n]), b[n]).outcome];
      calc {
        RunOutcomes(c, s, a + b);
        RunOutcomes(c, s, a + b[..n]) + last;
        RunOutcomes(c, s, a) + RunOutcomes(c, mid, b[..n]) + last;
        RunOutcomes(c, s, a) + (RunOutcomes(c, mid, b[..n]) + last);
        RunOutcomes(c, s, a) + RunOutcomes(c, mid, b);
      }
    }
  }

  /** A node that imports the snapshot of a peer after its blocks reports, for all later blocks,
      the outcomes and AppHashes that the peer reports, and reaches the peer's states. */
  lemma BootstrapFollowsPeer(c: Codecs, blocks: seq<Block>, later: seq<Block>, current: State, delivered: seq<Chunk>)
    requires StateCodec(c) && Portable(RunBlocks(c, GENESIS, blocks))
    requires var data := c.encodeState(RunBlocks(c, GENESIS, blocks)); |data| <= LIMIT && Delivers(data, delivered)
    ensures var peer := RunBlocks(c, GENESIS, blocks);
            var node := Import(c, current, Describe(c, peer), delivered);
            && node.result == ImportOk(AppHash(c, peer))
            && RunBlocks(c, node.state, later) == RunBlocks(c, GENESIS, blocks + later)
            && RunOutcomes(c, GENESIS, blocks) + RunOutcomes(c, node.state, later)
               == RunOutcomes(c, GENESIS, blocks + later)
  {
    hide ChunkCount, Portable, Import, RunBlocks, RunOutcomes;
    var peer := RunBlocks(c, GENESIS, blocks);
    DeliveryAssembles(c.encodeState(peer), delivered);
    ExportComplete(c.encodeState(peer));
    ImportRestores(c, peer, current, delivered);
    RunConcat(c, GENESIS, blocks, later);
  }

  /** In particular when all denoms and pairs of the peer's blocks are text. */
  lemma BootstrapOnText(c: Codecs, blocks: seq<Block>, later: seq<Block>, current: State, delivered: seq<Chunk>)
    requires StateCodec(c) && PriceCodec(c) && TextBlocks(blocks)
    requires var data := c.encodeState(RunBlocks(c, GENESIS, blocks)); |data| <= LIMIT && Delivers(data, delivered)
    ensures var node := Import(c, current, Describe(c, RunBlocks(c, GENESIS, blocks)), delivered);
            && node.result.ImportOk?
            && RunOutcomes(c, GENESIS, blocks) + RunOutcomes(c, node.state, later)
               == RunOutcomes(c, GENESIS, blocks + later)
  {
    hide Portable, Import, RunBlocks, RunOutcomes, Delivers;
    TextRunsArePortable(c, blocks);
    BootstrapFollowsPeer(c, blocks, later, current, delivered);
  }
}
