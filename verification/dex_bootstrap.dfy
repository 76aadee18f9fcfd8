/** State sync between two application objects: the one that imported goes on like the one
    that exported. */
module DexBootstrap {
  import opened Encoding
  import opened DexState
  import opened DexBlocks
  import opened DexSnapshot
  import opened DexSnapshotLaws
  import opened DexApp

  /** Executes and commits one block after the other. */
  method RunChain(app: App, blocks: seq<Block>) returns (outcomes: seq<BlockOutcome>)
    requires app.Valid() && app.Staging() == None
    modifies app, app.Repr
    ensures app.Valid() && fresh(app.Repr - old(app.Repr)) && app.Staging() == None
    ensures app.Live() == RunBlocks(app.codecs, old(app.Live()), blocks)
    ensures outcomes == RunOutcomes(app.codecs, old(app.Live()), blocks)
  {
    hide ExecBlock, RunBlocks, RunOutcomes, App.Live;
    outcomes := [];
    ghost var c, s0 := app.codecs, app.Live();
    NothingRun(c, s0, blocks[..0]);
    for i := 0 to |blocks|
      invariant app.Valid() && fresh(app.Repr - old(app.Repr)) && app.Staging() == None
      invariant app.Live() == RunBlocks(c, s0, blocks[..i])
      invariant outcomes == RunOutcomes(c, s0, blocks[..i])
    {
      var o := app.ExecuteBlock(blocks[i]);
      var retain := app.Commit();
      RunAppend(c, s0, blocks[..i], blocks[i]);
      assert blocks[..i] + [blocks[i]] == blocks[..i + 1];
      outcomes := outcomes + [o];
    }
    assert blocks[..|blocks|] == blocks;
  }

  lemma NothingRun(c: Codecs, s: State, blocks: seq<Block>)
    requires blocks == []
    ensures RunBlocks(c, s, blocks) == s && RunOutcomes(c, s, blocks) == []
  {
  }

  lemma {:induction false} ExportedHas(data: Bytes, n: nat, i: Uint32)
    requires i < n <= ChunkCount(data)
    ensures Exported(data, n)[i] == ChunkAt(data, i)
  {
    hide ChunkCount, ChunkAt;
    if i < n - 1 {
      ExportedHas(data, n - 1, i);
    }
  }

  /** An export delivers itself: each chunk once, in order. */
  lemma ExportDelivers(data: Bytes)
    ensures Delivers(data, Exported(data, ChunkCount(data)))
  {
    hide ChunkCount, ChunkAt, Exported;
    var n := ChunkCount(data);
    var chunks := Exported(data, n);
    forall i: Uint32 | i < n ensures ChunkAt(data, i) in chunks && chunks[i] == ChunkAt(data, i) {
      ExportedHas(data, n, i);
    }
    forall k | 0 <= k < n ensures chunks[k].index < n && chunks[k] == ChunkAt(data, chunks[k].index) {
      ExportedHas(data, n, k);
      ChunkIndex(data, k);
    }
  }

  /** The node gets the peer's snapshot and the chunks as the network delivers them: what the peer
      exported, in any order and with repeats. Then both run the same blocks. */
  method Follow(peer: App, node: App, delivered: seq<Chunk>, later: seq<Block>)
    returns (ours: seq<BlockOutcome>, theirs: seq<BlockOutcome>)
    requires peer.Valid() && node.Valid() && ({peer} + peer.Repr) !! ({node} + node.Repr)
    requires peer.codecs == node.codecs && peer.Staging() == None && node.Staging() == None
    requires StateCodec(peer.codecs) && Portable(peer.Live())
    requires var data := peer.codecs.encodeState(peer.Live()); |data| <= LIMIT && Delivers(data, delivered)
    modifies peer, peer.Repr, node, node.Repr
    ensures peer.Valid() && node.Valid()
    ensures ours == theirs == RunOutcomes(peer.codecs, old(peer.Live()), later)
    ensures node.Live() == peer.Live() == RunBlocks(peer.codecs, old(peer.Live()), later)
  {
    hide RunBlocks, RunOutcomes, Delivers, StateCodec, Portable, App.Live, App.Staging;
    Transfer(peer, node, delivered);
    theirs := RunChain(peer, later);
    ours := RunChain(node, later);
  }

  /** Exports from the peer and imports into the node. */
  method Transfer(peer: App, node: App, delivered: seq<Chunk>)
    requires peer.Valid() && node.Valid() && ({peer} + peer.Repr) !! ({node} + node.Repr)
    requires peer.codecs == node.codecs
    requires StateCodec(peer.codecs) && Portable(peer.Live())
    requires var data := peer.codecs.encodeState(peer.Live()); |data| <= LIMIT && Delivers(data, delivered)
    modifies node, node.Repr
    ensures node.Valid() && fresh(node.Repr - old(node.Repr))
    ensures node.Live() == peer.Live() && node.Staging() == old(node.Staging())
  {
    hide Portable, StateCodec, Import, Delivers, ChunkCount, Exported;
    var r := peer.ExportSnapshot(peer.current.height, FORMAT);
    var d := r.value.1;
    ImportsPeer(peer.codecs, peer.Live(), node.Live(), delivered);
    var result := node.ImportSnapshot(d, delivered);
  }

  lemma ImportsPeer(c: Codecs, s: State, current: State, delivered: seq<Chunk>)
    requires StateCodec(c) && Portable(s)
    requires |c.encodeState(s)| <= LIMIT && Delivers(c.encodeState(s), delivered)
    ensures Import(c, current, Describe(c, s), delivered) == Imported(s, ImportOk(AppHash(c, s)))
  {
    hide ChunkCount, Portable, Import, Delivers, Assembled, Received, StateCodec;
    DeliveryAssembles(c.encodeState(s), delivered);
    ExportComplete(c.encodeState(s));
    ImportRestores(c, s, current, delivered);
  }
}
