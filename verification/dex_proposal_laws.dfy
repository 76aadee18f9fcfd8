/** What a proposal contains, transaction by transaction, and which proposals are refused. */
module DexProposalLaws {
  import opened Encoding
  import opened DexState
  import opened DexOracle
  import opened DexOracleLaws
  import opened DexProposal

  // ----- The oracle transaction -----

  /** With extensions at hand, an aggregate that fits comes first; in all other cases the proposal
      holds no oracle update. */
  lemma InjectionMeans(c: Codecs, mempool: seq<Bytes>, exts: seq<Bytes>, maxBytes: Uint64)
    requires OracleTx(c, exts).Some? ==> |OracleTx(c, exts).value| < TWO63
    ensures var txs, tx := Proposal(c, mempool, exts, maxBytes), OracleTx(c, exts);
            if exts != [] && tx.Some? && |tx.value| <= maxBytes
            then txs != [] && txs[0] == tx.value && forall i | 1 <= i < |txs| :: txs[i] == [] || txs[i][0] != 4
            else forall i | 0 <= i < |txs| :: txs[i] == [] || txs[i][0] != 4
  {
    hide OracleTx;
    var mask := FillAfter(c, mempool, exts, maxBytes).mask;
    ProposalShape(c, mempool, exts, maxBytes);
    hide FillAfter, Marked, Proposal;
    var injected, others := Injected(c, exts, maxBytes), Marked(mempool, mask);
    forall i | 0 <= i < |others| ensures others[i] == [] || others[i][0] != 4 {
      assert others[i] in others;
    }
  }

  // ----- The greedy pass -----

  lemma OfferTotal(prior: Filled, tx: Bytes, start: Uint64, maxBytes: Uint64)
    requires prior.total == Wrap64(start + TotalSize(prior.taken))
    ensures var f := Offer(prior, tx, maxBytes); f.total == Wrap64(start + TotalSize(f.taken))
  {
    hide IsOracle, TotalSize, Wrap64;
    TotalSizeAppend(prior.taken, tx);
    WrapAdd(start + TotalSize(prior.taken), |tx|);
  }

  /** The total of the pass is the size of what it took, wrapped. */
  lemma {:induction false} FillTotal(mempool: seq<Bytes>, start: Uint64, maxBytes: Uint64)
    ensures var f := Fill(mempool, start, maxBytes); f.total == Wrap64(start + TotalSize(f.taken))
  {
    hide Offer;
    if mempool == [] {
      FillNone(start, maxBytes);
      WrapOnce(start);
    } else {
      hide TotalSize, Wrap64;
      var n := |mempool| - 1;
      FillTotal(mempool[..n], start, maxBytes);
      OfferTotal(Fill(mempool[..n], start, maxBytes), mempool[n], start, maxBytes);
    }
  }

  lemma WrapAdd(a: nat, b: nat)
    ensures Wrap64(Wrap64(a) + b) == Wrap64(a + b)
  {
  }

  /** The mempool is offered in its order: the next transaction joins exactly when it is no oracle
      update and the wrapped size of the proposal so far with it is within the limit. */
  lemma ProposalStep(c: Codecs, mempool: seq<Bytes>, tx: Bytes, exts: seq<Bytes>, maxBytes: Uint64)
    ensures var before := Proposal(c, mempool, exts, maxBytes);
            var joins := (tx == [] || tx[0] != 4) && (TotalSize(before) + |tx|) % 0x1_0000_0000_0000_0000 <= maxBytes;
            Proposal(c, mempool + [tx], exts, maxBytes) == if joins then before + [tx] else before
  {
    hide OracleTx, TotalSize;
    var injected := Injected(c, exts, maxBytes);
    var start := Wrap64(TotalSize(injected));
    hide Injected;
    var f := Fill(mempool, start, maxBytes);
    assert (mempool + [tx])[..|mempool|] == mempool;
    FillTotal(mempool, start, maxBytes);
    TotalSizeConcat(injected, f.taken);
    WrapAdd(TotalSize(injected), TotalSize(f.taken));
    WrapAdd(TotalSize(injected + f.taken), |tx|);
    assert injected + (f.taken + [tx]) == (injected + f.taken) + [tx];
    assert Fill(mempool + [tx], start, maxBytes) == Offer(f, tx, maxBytes);
  }

  /** Without a mempool the proposal is what is injected. */
  lemma ProposalStart(c: Codecs, exts: seq<Bytes>, maxBytes: Uint64)
    ensures var txs := Proposal(c, [], exts, maxBytes);
            |txs| <= 1 && forall tx | tx in txs :: OracleTx(c, exts) == Some(tx)
  {
    hide OracleTx, TotalSize;
  }

  // ----- Verification -----

  /** Which proposals are refused: an oracle update that does not decode or has an entry without
      pair or price in front, or one further back; but nothing is refused when extensions are at
      hand and no oracle update is in front. */
  lemma ProposalVerdict(c: Codecs, txs: seq<Bytes>, exts: seq<Bytes>)
    ensures var front := txs != [] && txs[0] != [] && txs[0][0] == 4;
            var late := exists i :: 1 <= i < |txs| && txs[i] != [] && txs[i][0] == 4;
            var dishonest := front && (c.decodePrices(txs[0][1..]).None?
                || exists p :: p in c.decodePrices(txs[0][1..]).value && (p.pair == [] || p.price == 0));
            !AcceptsProposal(c, txs, exts) <==> (exts == [] || front) && (late || dishonest)
  {
    if txs != [] {
      assert IsOracle(txs[0]) <==> txs[0] != [] && txs[0][0] == 4;
      if IsOracle(txs[0]) && c.decodePrices(txs[0][1..]).Some? {
        assert HonestPrices(c, txs[0]) <==>
                 !exists p :: p in c.decodePrices(txs[0][1..]).value && (p.pair == [] || p.price == 0);
      }
      assert (exists i :: 1 <= i < |txs| && txs[i] != [] && txs[i][0] == 4) <==>
             !forall i | 1 <= i < |txs| :: !IsOracle(txs[i]);
    }
  }
}
