/** What blocks and transactions do, in terms of what can be read before and after: balances,
    orders, prices, the height, and the fields of outcomes. */
module DexMeaning {
  import opened Encoding
  import opened DexState
  import opened DexBlocks
  import DexLaws

  // ----- Reading the ledger -----

  /** Whether an address has an entry for a denom. */
  predicate HasEntry(s: State, addr: Bytes, denom: Bytes) {
    addr in s.balances && denom in s.balances[addr]
  }

  lemma GenesisIsEmpty()
    ensures GENESIS.height == 0 && GENESIS.balances == map[] && GENESIS.prices == map[]
    ensures GENESIS.orders == [] && GENESIS.ordersNil
  {
  }

  /** Two states differ in balances alone, and there in one entry at most. */
  ghost predicate OnlyEntry(s: State, t: State, addr: Bytes, denom: Bytes) {
    && t.height == s.height && t.orders == s.orders && t.ordersNil == s.ordersNil && t.prices == s.prices
    && forall a, d | a != addr || d != denom ::
         Balance(t, a, d) == Balance(s, a, d) && (HasEntry(t, a, d) <==> HasEntry(s, a, d))
  }

  lemma SetEntryOnly(s: State, addr: Bytes, denom: Bytes, v: Uint64)
    ensures var t := SetBalance(s, addr, denom, v);
            && OnlyEntry(s, t, addr, denom) && HasEntry(t, addr, denom)
            && t.balances[addr][denom] == v == Balance(t, addr, denom)
  {
  }

  lemma DropEntryOnly(s: State, addr: Bytes, denom: Bytes)
    ensures var t := DropBalance(s, addr, denom);
            OnlyEntry(s, t, addr, denom) && !HasEntry(t, addr, denom) && Balance(t, addr, denom) == 0
    ensures Denoms(s, addr) - {denom} == map[] ==> addr !in DropBalance(s, addr, denom).balances
  {
    var t := DropBalance(s, addr, denom);
    var rest := Denoms(s, addr) - {denom};
    if rest == map[] {
      forall d | d != denom ensures !HasEntry(s, addr, d) {
        assert d !in rest;
      }
    }
  }

  // ----- The four transactions -----

  /** A deposit adds to one balance, wrapping at 2^64, and reports it. */
  lemma DepositMeans(c: Codecs, s: State, index: Uint32, tx: Bytes)
    requires |tx| >= 30 && tx[0] == 1 && GetUint64(tx[21..29]) != 0
    ensures var e, owner, denom, amount := ExecTx(c, s, index, tx), Hex(tx[1..21]), tx[29..], GetUint64(tx[21..29]);
            var sum := (Balance(s, owner, denom) + amount) % 0x1_0000_0000_0000_0000;
            && OnlyEntry(s, e.state, owner, denom)
            && HasEntry(e.state, owner, denom) && e.state.balances[owner][denom] == sum
            && e.outcome == TxOutcome(index, 0, Fine, PutUint64(sum), [Deposited(owner, denom, amount)])
            && e.events == []
  {
    AmountField(tx);
    var owner, denom := Hex(tx[1..21]), tx[29..];
    SetEntryOnly(s, owner, denom, Wrap64(Balance(s, owner, denom) + GetUint64(tx[21..29])));
    hide Hex, GetUint64, PutUint64, Balance, SetBalance, OnlyEntry, Withdraw, LimitOrder, OracleUpdate;
  }

  lemma AmountField(tx: Bytes)
    requires |tx| >= 29
    ensures Amount(tx) == GetUint64(tx[21..29])
  {
    assert tx[21..][..8] == tx[21..29][..8];
  }

  /** A withdrawal of what is there takes it off one balance; at zero the entry goes, and the
      address with its last one. */
  lemma WithdrawMeans(c: Codecs, s: State, index: Uint32, tx: Bytes)
    requires |tx| >= 30 && tx[0] == 2
    requires 0 < GetUint64(tx[21..29]) <= Balance(s, Hex(tx[1..21]), tx[29..])
    ensures var e, owner, denom, amount := ExecTx(c, s, index, tx), Hex(tx[1..21]), tx[29..], GetUint64(tx[21..29]);
            var rest := Balance(s, owner, denom) - amount;
            && OnlyEntry(s, e.state, owner, denom)
            && (HasEntry(e.state, owner, denom) <==> rest > 0) && Balance(e.state, owner, denom) == rest
            && (rest == 0 && Denoms(s, owner) - {denom} == map[] ==> owner !in e.state.balances)
            && e.outcome == TxOutcome(index, 0, Fine, PutUint64(rest), [Withdrew(owner, denom, amount)])
            && e.events == []
  {
    AmountField(tx);
    var owner, denom := Hex(tx[1..21]), tx[29..];
    SetEntryOnly(s, owner, denom, Balance(s, owner, denom) - GetUint64(tx[21..29]));
    DropEntryOnly(s, owner, denom);
    hide Hex, GetUint64, PutUint64, Balance, SetBalance, DropBalance, OnlyEntry, Deposit, LimitOrder, OracleUpdate;
  }

  lemma PriceField(tx: Bytes)
    requires |tx| >= 37
    ensures Price(tx) == GetUint64(tx[29..37])
  {
    assert tx[29..][..8] == tx[29..37][..8];
  }

  /** A limit order takes its amount off the balance of the base denom, keeping the entry, and
      appends itself to the book. */
  lemma LimitOrderMeans(c: Codecs, s: State, index: Uint32, tx: Bytes)
    requires |tx| >= 38 && tx[0] == 3 && GetUint64(tx[29..37]) != 0
    requires 0 < GetUint64(tx[21..29]) <= Balance(s, Hex(tx[1..21]), PairBase(tx[37..]))
    ensures var e, owner, pair := ExecTx(c, s, index, tx), Hex(tx[1..21]), tx[37..];
            var amount, price, base := GetUint64(tx[21..29]), GetUint64(tx[29..37]), PairBase(tx[37..]);
            && OnlyEntry(s.(orders := e.state.orders, ordersNil := false), e.state, owner, base)
            && HasEntry(e.state, owner, base)
            && e.state.balances[owner][base] == Balance(s, owner, base) - amount
            && e.state.orders == s.orders + [Order(tx[1..21], pair, amount, price)]
            && e.outcome == TxOutcome(index, 0, Fine, PutUint64(Wrap64(|s.orders|)),
                                      [Ordered(owner, pair, amount, price)])
            && e.events == []
  {
    AmountField(tx);
    PriceField(tx);
    var owner, base := Hex(tx[1..21]), PairBase(tx[37..]);
    var left: Uint64 := Balance(s, owner, base) - GetUint64(tx[21..29]);
    SetEntryOnly(s, owner, base, left);
    var e := ExecTx(c, s, index, tx);
    hide Hex, GetUint64, PutUint64, PairBase, Deposit, Withdraw, OracleUpdate, Wrap64;
    assert e.state.balances == SetBalance(s, owner, base, left).balances;
  }

  /** Which transactions fail, with which code and reason; a failure changes and emits nothing. */
  lemma FailureMeans(c: Codecs, s: State, index: Uint32, tx: Bytes)
    ensures var e := ExecTx(c, s, index, tx);
            && (e.outcome.code != 0 ==>
                e.state == s && e.events == [] && e.outcome == TxOutcome(index, e.outcome.code, e.outcome.info, [], []))
            && (tx == [] ==> e.outcome.code == 1 && e.outcome.info == EmptyTx)
            && (tx != [] && tx[0] != 1 && tx[0] != 2 && tx[0] != 3 && tx[0] != 4 ==>
                e.outcome.code == 1 && e.outcome.info == UnknownType(tx[0]))
            && (tx != [] && ((1 <= tx[0] <= 2 && |tx| < 30) || (tx[0] == 3 && |tx| < 38) || (tx[0] == 4 && |tx| < 2))
                ==> e.outcome.code == 1 && e.outcome.info == TooShort)
            && (|tx| >= 30 && 1 <= tx[0] <= 2 && GetUint64(tx[21..29]) == 0 ==>
                e.outcome.code == 1 && e.outcome.info == ZeroValue)
            && (|tx| >= 38 && tx[0] == 3 && (GetUint64(tx[21..29]) == 0 || GetUint64(tx[29..37]) == 0) ==>
                e.outcome.code == 1 && e.outcome.info == ZeroValue)
            && (|tx| >= 2 && tx[0] == 4 && c.decodePrices(tx[1..]).None? ==>
                e.outcome.code == 1 && e.outcome.info == BadJson)
  {
    if |tx| >= 29 {
      AmountField(tx);
    }
    if |tx| >= 37 {
      PriceField(tx);
    }
    hide Hex, GetUint64, PutUint64, PairBase, Balance, SetBalance, DropBalance, Wrap64, ApplyPrices, PriceEvents;
  }

  /** What is asked for beyond the balance fails with code 2. */
  lemma ShortfallMeans(c: Codecs, s: State, index: Uint32, tx: Bytes)
    requires || (|tx| >= 30 && tx[0] == 2 && Balance(s, Hex(tx[1..21]), tx[29..]) < GetUint64(tx[21..29]))
             || (|tx| >= 38 && tx[0] == 3 && GetUint64(tx[29..37]) != 0
                 && Balance(s, Hex(tx[1..21]), PairBase(tx[37..])) < GetUint64(tx[21..29]))
    ensures var e := ExecTx(c, s, index, tx);
            var have := Balance(s, Hex(tx[1..21]), if tx[0] == 2 then tx[29..] else PairBase(tx[37..]));
            e.state == s && e.outcome == TxOutcome(index, 2, Insufficient(have, GetUint64(tx[21..29])), [], [])
  {
    AmountField(tx);
    if tx[0] == 3 {
      PriceField(tx);
    }
    hide Hex, GetUint64, PutUint64, PairBase, Balance, SetBalance, DropBalance, Wrap64;
  }

  // ----- Oracle updates -----

  /** A well-formed update stores prices and touches nothing else; it emits, for itself and for
      the block, one event for each of its usable entries. */
  lemma OracleUpdateMeans(c: Codecs, s: State, index: Uint32, tx: Bytes)
    requires |tx| >= 2 && tx[0] == 4 && c.decodePrices(tx[1..]).Some?
    ensures var e, ps := ExecTx(c, s, index, tx), c.decodePrices(tx[1..]).value;
            && e.state == s.(prices := ApplyPrices(s.prices, ps))
            && e.outcome == TxOutcome(index, 0, Fine, [], e.events)
            && e.events == PriceEvents(ps)
  {
  }

  /** The last usable entry of a pair decides its price. */
  lemma {:induction false} LastPriceWins(prices: map<Bytes, Uint64>, ps: seq<OraclePrice>, k: nat)
    requires k < |ps| && ps[k].pair != [] && ps[k].price != 0
    requires forall j | k < j < |ps| :: ps[j].pair != ps[k].pair || ps[j].price == 0
    ensures ps[k].pair in ApplyPrices(prices, ps) && ApplyPrices(prices, ps)[ps[k].pair] == ps[k].price
  {
    var n := |ps| - 1;
    if k < n {
      LastPriceWins(prices, ps[..n], k);
    }
  }

  /** A pair without a usable entry keeps its price, or stays without one. */
  lemma {:induction false} OtherPricesStay(prices: map<Bytes, Uint64>, ps: seq<OraclePrice>, pair: Bytes)
    requires forall j | 0 <= j < |ps| :: ps[j].pair != pair || ps[j].pair == [] || ps[j].price == 0
    ensures pair in ApplyPrices(prices, ps) <==> pair in prices
    ensures pair in prices ==> ApplyPrices(prices, ps)[pair] == prices[pair]
  {
    if ps != [] {
      OtherPricesStay(prices, ps[..|ps| - 1], pair);
    }
  }

  /** The events of a list, entry by entry. */
  lemma PriceEventsAppend(ps: seq<OraclePrice>, p: OraclePrice)
    ensures PriceEvents([]) == []
    ensures PriceEvents(ps + [p]) ==
              PriceEvents(ps) + if p.pair != [] && p.price != 0 then [Priced(p.pair, p.price)] else []
  {
    assert (ps + [p])[..|ps|] == ps;
  }

  // ----- Blocks -----

  /** A block starts from the committed state at its own height. */
  lemma OpenedMeans(s: State, height: Uint64)
    ensures var t := Opened(s, height);
            && t.height == height && t.balances == s.balances && t.prices == s.prices
            && t.orders == s.orders && !t.ordersNil
  {
  }

  /** Transaction i runs with index i on the state its predecessors left. */
  lemma {:induction false} TxsInOrder(c: Codecs, s: State, txs: seq<Bytes>, i: nat)
    requires i < |txs|
    ensures var e := ExecTx(c, ExecTxs(c, s, txs[..i]).state, Wrap32(i), txs[i]);
            && ExecTxs(c, s, txs[..i + 1]).state == e.state
            && ExecTxs(c, s, txs).outcomes[i] == e.outcome
  {
    hide ExecTx, Wrap32;
    var n := |txs| - 1;
    assert txs[..i + 1][..i] == txs[..i];
    if i < n {
      TxsInOrder(c, s, txs[..n], i);
      assert txs[..n][..i] == txs[..i];
    } else {
      assert txs[..n + 1] == txs;
    }
  }

  lemma NoTxs(c: Codecs, s: State)
    ensures ExecTxs(c, s, []) == TxsEffect(s, [], [])
  {
  }

  /** The outcome of a block has one entry for each transaction, the one it has on the state its
      predecessors left, in order; the events of its oracle updates; and the hash of the state
      that the last transaction left. */
  lemma BlockMeans(c: Codecs, s: State, b: Block)
    ensures var e, start := ExecBlock(c, s, b), s.(height := b.height, ordersNil := false);
            && e.state == ExecTxs(c, start, b.txs).state
            && |e.outcome.txOutcomes| == |b.txs|
            && (forall i | 0 <= i < |b.txs| ::
                  e.outcome.txOutcomes[i] ==
                    ExecTx(c, ExecTxs(c, start, b.txs[..i]).state, Wrap32(i), b.txs[i]).outcome)
            && e.outcome.blockEvents == OracleEvents(b.txs, e.outcome.txOutcomes)
            && e.outcome.appHash == c.sha256(c.encodeState(e.state))
  {
    hide ExecTxs, ExecTx, OracleEvents;
    var start := Opened(s, b.height);
    OutcomeShape(c, start, b.txs);
    forall i | 0 <= i < |b.txs|
      ensures ExecBlock(c, s, b).outcome.txOutcomes[i] ==
                ExecTx(c, ExecTxs(c, start, b.txs[..i]).state, Wrap32(i), b.txs[i]).outcome
    {
      TxsInOrder(c, start, b.txs, i);
    }
  }

  /** Transactions leave the height alone, so the state after a block is at its height. */
  lemma {:induction false} HeightStays(c: Codecs, s: State, txs: seq<Bytes>)
    ensures ExecTxs(c, s, txs).state.height == s.height
  {
    if txs != [] {
      hide ExecTx;
      var n := |txs| - 1;
      HeightStays(c, s, txs[..n]);
      TxKeepsHeight(c, ExecTxs(c, s, txs[..n]).state, Wrap32(n), txs[n]);
    }
  }

  lemma TxKeepsHeight(c: Codecs, s: State, index: Uint32, tx: Bytes)
    ensures ExecTx(c, s, index, tx).state.height == s.height
  {
    hide Hex, GetUint64, PutUint64, PairBase, Balance, Wrap64, ApplyPrices, PriceEvents;
  }

  lemma BlockHeight(c: Codecs, s: State, b: Block)
    ensures ExecBlock(c, s, b).state.height == b.height
  {
    hide ExecTxs;
    HeightStays(c, Opened(s, b.height), b.txs);
  }

  /** Equal hashes mean equal states, as long as the two encodings do not collide. */
  lemma AppHashBinds(c: Codecs, s: State, t: State)
    requires StateCodec(c) && Portable(s) && Portable(t)
    requires c.sha256(c.encodeState(s)) == c.sha256(c.encodeState(t)) ==> c.encodeState(s) == c.encodeState(t)
    ensures AppHash(c, s) == AppHash(c, t) <==> s == t
  {
    hide Portable;
    assert c.decodeState(c.encodeState(s)) == Some(s);
    assert c.decodeState(c.encodeState(t)) == Some(t);
  }
}
