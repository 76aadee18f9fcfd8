/** The shape of block outcomes and the inertness of failing transactions. */
module DexBlocks {
  import opened Encoding
  import opened DexState

  // ----- Shape of the outcomes -----

  /** The events of the oracle transactions among txs, in block order. */
  function OracleEvents(txs: seq<Bytes>, outcomes: seq<TxOutcome>): seq<Event>
    requires |outcomes| == |txs|
  {
    if txs == [] then []
    else
      var n := |txs| - 1;
      OracleEvents(txs[..n], outcomes[..n])
      + if txs[n] != [] && txs[n][0] == TX_ORACLE_UPDATE then outcomes[n].events else []
  }

  lemma ExecTxEvents(c: Codecs, s: State, index: Uint32, tx: Bytes)
    ensures var e := ExecTx(c, s, index, tx);
            && e.outcome.index == index
            && e.events == if tx != [] && tx[0] == TX_ORACLE_UPDATE then e.outcome.events else []
  {
  }

  /** One outcome per transaction, indexed by position; the block events are those of the
      oracle transactions, in order. */
  lemma {:induction false} OutcomeShape(c: Codecs, s: State, txs: seq<Bytes>)
    ensures var r := ExecTxs(c, s, txs);
            && |r.outcomes| == |txs|
            && (forall i | 0 <= i < |txs| :: r.outcomes[i].index == Wrap32(i))
            && r.events == OracleEvents(txs, r.outcomes)
  {
    hide ExecTx, Wrap32;
    if txs != [] {
      var n := |txs| - 1;
      var prior, r := ExecTxs(c, s, txs[..n]), ExecTxs(c, s, txs);
      OutcomeShape(c, s, txs[..n]);
      ExecTxEvents(c, prior.state, Wrap32(n), txs[n]);
      assert r.outcomes[..n] == prior.outcomes;
    }
  }

  // ----- Failing transactions -----

  lemma FailureChangesNothing(c: Codecs, s: State, index: Uint32, tx: Bytes)
    ensures var e := ExecTx(c, s, index, tx);
            e.outcome.code != 0 ==> e.state == s && e.events == [] && e.outcome.events == []
  {
    hide Hex, PutUint64, PairBase, Balance, SetBalance, DropBalance, Wrap64, ApplyPrices, PriceEvents;
  }

  function AtIndex(o: TxOutcome, index: Uint32): TxOutcome { o.(index := index) }

  lemma IndexOnlyLabels(c: Codecs, s: State, i: Uint32, j: Uint32, tx: Bytes)
    ensures var e, f := ExecTx(c, s, i, tx), ExecTx(c, s, j, tx);
            f.state == e.state && f.events == e.events && f.outcome == AtIndex(e.outcome, j)
  {
    hide Hex, PutUint64, PairBase, Balance, SetBalance, DropBalance, Wrap64, ApplyPrices, PriceEvents;
  }

  /** The transactions of a block that succeed in it. */
  function Survivors(c: Codecs, s: State, txs: seq<Bytes>): seq<Bytes> {
    if txs == [] then []
    else
      var n := |txs| - 1;
      Survivors(c, s, txs[..n]) + if ExecTxs(c, s, txs).outcomes[n].code == 0 then [txs[n]] else []
  }

  function Successes(outcomes: seq<TxOutcome>): seq<TxOutcome> {
    if outcomes == [] then []
    else
      var n := |outcomes| - 1;
      Successes(outcomes[..n]) + if outcomes[n].code == 0 then [outcomes[n]] else []
  }

  /** The same outcomes, numbered from zero. */
  function Renumbered(outcomes: seq<TxOutcome>): (r: seq<TxOutcome>)
    ensures |r| == |outcomes|
  {
    if outcomes == [] then []
    else
      var n := |outcomes| - 1;
      Renumbered(outcomes[..n]) + [AtIndex(outcomes[n], Wrap32(n))]
  }

  /** Dropping the failing transactions of a block changes neither the state it reaches nor
      its events; the other transactions keep their outcomes up to the index. */
  lemma {:induction false} FailuresAreInert(c: Codecs, s: State, txs: seq<Bytes>)
    ensures var all, kept := ExecTxs(c, s, txs), ExecTxs(c, s, Survivors(c, s, txs));
            && kept.state == all.state
            && kept.events == all.events
            && kept.outcomes == Renumbered(Successes(all.outcomes))
  {
    hide ExecTx, Wrap32;
    if txs != [] {
      var n := |txs| - 1;
      FailuresAreInert(c, s, txs[..n]);
      var prior, all := ExecTxs(c, s, txs[..n]), ExecTxs(c, s, txs);
      var e := ExecTx(c, prior.state, Wrap32(n), txs[n]);
      var front, kept := Survivors(c, s, txs[..n]), Survivors(c, s, txs);
      assert all.outcomes[..n] == prior.outcomes;
      if e.outcome.code != 0 {
        FailureChangesNothing(c, prior.state, Wrap32(n), txs[n]);
        assert kept == front && Successes(all.outcomes) == Successes(prior.outcomes);
        assert prior.events + [] == prior.events;
      } else {
        var m := |front|;
        assert kept[..m] == front && kept[m] == txs[n];
        IndexOnlyLabels(c, prior.state, Wrap32(n), Wrap32(m), txs[n]);
        var okays := Successes(prior.outcomes);
        assert Successes(all.outcomes) == okays + [e.outcome];
        assert (okays + [e.outcome])[..m] == okays;
      }
    }
  }

  /** At block level: same state, same events, same AppHash. */
  lemma BlockWithoutFailures(c: Codecs, s: State, b: Block)
    ensures var kept := Block(b.height, Survivors(c, Opened(s, b.height), b.txs));
            var full, short := ExecBlock(c, s, b), ExecBlock(c, s, kept);
            && short.state == full.state
            && short.outcome.appHash == full.outcome.appHash
            && short.outcome.blockEvents == full.outcome.blockEvents
            && short.outcome.txOutcomes == Renumbered(Successes(full.outcome.txOutcomes))
  {
    FailuresAreInert(c, Opened(s, b.height), b.txs);
  }

  /** One more block at the end of a run. */
  lemma RunAppend(c: Codecs, s: State, blocks: seq<Block>, b: Block)
    ensures var e := ExecBlock(c, RunBlocks(c, s, blocks), b);
            && RunBlocks(c, s, blocks + [b]) == e.state
            && RunOutcomes(c, s, blocks + [b]) == RunOutcomes(c, s, blocks) + [e.outcome]
  {
    assert (blocks + [b])[..|blocks|] == blocks;
  }
}
