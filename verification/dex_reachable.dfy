/** What holds of every state that a run can reach. */
module DexReachable {
  import opened Encoding
  import opened DexState
  import opened DexOracleLaws

  // ----- The shape of the state -----

  predicate GoodPrices(prices: map<Bytes, Uint64>) {
    forall p | p in prices :: p != [] && prices[p] != 0
  }

  predicate Sound(s: State) {
    && (forall a | a in s.balances :: s.balances[a] != map[] && [] !in s.balances[a])
    && GoodPrices(s.prices)
    && (forall i | 0 <= i < |s.orders| :: s.orders[i].amount > 0 && s.orders[i].price > 0)
    && (s.ordersNil ==> s.orders == [])
  }

  lemma SetKeepsSound(s: State, addr: Bytes, denom: Bytes, v: Uint64)
    requires Sound(s) && denom != []
    ensures Sound(SetBalance(s, addr, denom, v))
  {
    assert denom in SetBalance(s, addr, denom, v).balances[addr];
  }

  lemma DropKeepsSound(s: State, addr: Bytes, denom: Bytes)
    requires Sound(s)
    ensures Sound(DropBalance(s, addr, denom))
  {
  }

  lemma {:induction false} ApplyKeepsSound(prices: map<Bytes, Uint64>, ps: seq<OraclePrice>)
    requires GoodPrices(prices)
    ensures GoodPrices(ApplyPrices(prices, ps))
  {
    if ps != [] {
      ApplyKeepsSound(prices, ps[..|ps| - 1]);
      var prior, last := ApplyPrices(prices, ps[..|ps| - 1]), ps[|ps| - 1];
      assert UsablePrice(last) ==> GoodPrices(prior[last.pair := last.price]);
    }
  }

  lemma TxKeepsSound(c: Codecs, s: State, index: Uint32, tx: Bytes)
    requires Sound(s)
    ensures Sound(ExecTx(c, s, index, tx).state)
  {
    if tx == [] {
    } else if tx[0] == TX_DEPOSIT {
      DepositKeepsSound(s, index, tx);
    } else if tx[0] == TX_WITHDRAW {
      WithdrawKeepsSound(s, index, tx);
    } else if tx[0] == TX_LIMIT_ORDER {
      LimitOrderKeepsSound(s, index, tx);
    } else if tx[0] == TX_ORACLE_UPDATE && |tx| >= 2 && c.decodePrices(tx[1..]).Some? {
      ApplyKeepsSound(s.prices, c.decodePrices(tx[1..]).value);
    }
  }

  lemma DepositKeepsSound(s: State, index: Uint32, tx: Bytes)
    requires Sound(s)
    ensures Sound(Deposit(s, index, tx).state)
  {
    if |tx| >= 30 {
      var to := Hex(Owner(tx));
      SetKeepsSound(s, to, tx[29..], Wrap64(Balance(s, to, tx[29..]) + Amount(tx)));
    }
    hide Sound, SetBalance, Wrap64, Hex;
  }

  lemma WithdrawKeepsSound(s: State, index: Uint32, tx: Bytes)
    requires Sound(s)
    ensures Sound(Withdraw(s, index, tx).state)
  {
    hide Sound, SetBalance, DropBalance, Hex;
    if Withdraw(s, index, tx).outcome.code == 0 {
      var from, denom := Hex(Owner(tx)), tx[29..];
      SetKeepsSound(s, from, denom, Balance(s, from, denom) - Amount(tx));
      DropKeepsSound(s, from, denom);
    }
  }

  /** The base denom of a covered order exists, so it is not empty. */
  lemma LimitOrderKeepsSound(s: State, index: Uint32, tx: Bytes)
    requires Sound(s)
    ensures Sound(LimitOrder(s, index, tx).state)
  {
    var e := LimitOrder(s, index, tx);
    hide SetBalance, Hex, PairBase;
    if e.outcome.code == 0 {
      var from, base := Hex(Owner(tx)), PairBase(tx[37..]);
      assert base in s.balances[from];
      SetKeepsSound(s, from, base, Balance(s, from, base) - Amount(tx));
    }
  }

  lemma {:induction false} TxsKeepSound(c: Codecs, s: State, txs: seq<Bytes>)
    requires Sound(s)
    ensures Sound(ExecTxs(c, s, txs).state)
  {
    hide Sound, ExecTx;
    if txs != [] {
      var n := |txs| - 1;
      TxsKeepSound(c, s, txs[..n]);
      TxKeepsSound(c, ExecTxs(c, s, txs[..n]).state, Wrap32(n), txs[n]);
    }
  }

  /** No reachable state has an empty denom map, an empty denom, an empty or zero price entry,
      or an order without amount or price. */
  lemma {:induction false} ReachableIsSound(c: Codecs, blocks: seq<Block>)
    ensures Sound(RunBlocks(c, GENESIS, blocks))
  {
    if blocks != [] {
      var n := |blocks| - 1;
      ReachableIsSound(c, blocks[..n]);
      TxsKeepSound(c, Opened(RunBlocks(c, GENESIS, blocks[..n]), blocks[n].height), blocks[n].txs);
    }
  }

  // ----- Portability -----

  /** The strings a transaction puts into the state are valid UTF-8. */
  predicate TextTx(tx: Bytes) {
    && (|tx| >= 30 && tx[0] == TX_DEPOSIT ==> ValidUtf8(tx[29..]))
    && (|tx| >= 38 && tx[0] == TX_LIMIT_ORDER ==> ValidUtf8(tx[37..]))
  }

  predicate TextBlocks(blocks: seq<Block>) {
    forall i | 0 <= i < |blocks| :: forall j | 0 <= j < |blocks[i].txs| :: TextTx(blocks[i].txs[j])
  }

  lemma {:induction false} AsciiIsUtf8(s: Bytes)
    requires forall i | 0 <= i < |s| :: s[i] < 0x80
    ensures ValidUtf8(s)
  {
    if s != [] {
      AsciiIsUtf8(s[1..]);
    }
  }

  lemma {:induction false} HexIsAscii(b: Bytes)
    ensures forall i | 0 <= i < |Hex(b)| :: Hex(b)[i] < 0x80
  {
    if b != [] {
      HexIsAscii(b[1..]);
    }
  }

  lemma SetKeepsPortable(s: State, addr: Bytes, denom: Bytes, v: Uint64)
    requires Portable(s) && ValidUtf8(addr) && ValidUtf8(denom)
    ensures Portable(SetBalance(s, addr, denom, v))
  {
  }

  lemma DropKeepsPortable(s: State, addr: Bytes, denom: Bytes)
    requires Portable(s)
    ensures Portable(DropBalance(s, addr, denom))
  {
  }

  lemma {:induction false} ApplyKeepsPortable(prices: map<Bytes, Uint64>, ps: seq<OraclePrice>)
    requires PortablePrices(ps) && forall p | p in prices :: ValidUtf8(p)
    ensures forall p | p in ApplyPrices(prices, ps) :: ValidUtf8(p)
  {
    if ps != [] {
      ApplyKeepsPortable(prices, ps[..|ps| - 1]);
    }
  }

  lemma LedgerTxKeepsPortable(s: State, index: Uint32, tx: Bytes)
    requires Portable(s) && TextTx(tx) && |tx| >= 30
    ensures tx[0] == TX_DEPOSIT ==> Portable(Deposit(s, index, tx).state)
    ensures tx[0] == TX_WITHDRAW ==> Portable(Withdraw(s, index, tx).state)
  {
    hide SetBalance, DropBalance, Hex, ValidUtf8, Portable, Wrap64;
    var who, denom := Hex(Owner(tx)), tx[29..];
    HexIsAscii(Owner(tx));
    AsciiIsUtf8(who);
    if tx[0] == TX_DEPOSIT {
      SetKeepsPortable(s, who, denom, Wrap64(Balance(s, who, denom) + Amount(tx)));
    } else if tx[0] == TX_WITHDRAW && Withdraw(s, index, tx).outcome.code == 0 {
      DropKeepsPortable(s, who, denom);
      WithdrawnDenomIsText(s, who, denom);
      SetKeepsPortable(s, who, denom, Balance(s, who, denom) - Amount(tx));
    }
  }

  lemma WithdrawnDenomIsText(s: State, addr: Bytes, denom: Bytes)
    requires Portable(s) && Balance(s, addr, denom) > 0
    ensures ValidUtf8(denom)
  {
  }

  lemma LimitOrderKeepsPortable(s: State, index: Uint32, tx: Bytes)
    requires Portable(s) && TextTx(tx) && tx != [] && tx[0] == TX_LIMIT_ORDER
    ensures Portable(LimitOrder(s, index, tx).state)
  {
    hide SetBalance, Hex, PairBase, ValidUtf8;
    if LimitOrder(s, index, tx).outcome.code == 0 {
      var who, base := Hex(Owner(tx)), PairBase(tx[37..]);
      HexIsAscii(Owner(tx));
      AsciiIsUtf8(who);
      WithdrawnDenomIsText(s, who, base);
      SetKeepsPortable(s, who, base, Balance(s, who, base) - Amount(tx));
    }
  }

  lemma TxKeepsPortable(c: Codecs, s: State, index: Uint32, tx: Bytes)
    requires PriceCodec(c) && Portable(s) && TextTx(tx)
    ensures Portable(ExecTx(c, s, index, tx).state)
  {
    hide Deposit, Withdraw, LimitOrder, TextTx;
    if tx == [] {
    } else if tx[0] == TX_ORACLE_UPDATE {
      if |tx| >= 2 && c.decodePrices(tx[1..]).Some? {
        ApplyKeepsPortable(s.prices, c.decodePrices(tx[1..]).value);
      }
    } else if tx[0] == TX_LIMIT_ORDER {
      LimitOrderKeepsPortable(s, index, tx);
    } else if |tx| >= 30 {
      LedgerTxKeepsPortable(s, index, tx);
    } else {
      ShortTxFails(s, index, tx);
    }
  }

  lemma ShortTxFails(s: State, index: Uint32, tx: Bytes)
    requires |tx| < 30
    ensures Deposit(s, index, tx).state == s && Withdraw(s, index, tx).state == s
  {
  }

  lemma {:induction false} TxsKeepPortable(c: Codecs, s: State, txs: seq<Bytes>)
    requires PriceCodec(c) && Portable(s) && forall j | 0 <= j < |txs| :: TextTx(txs[j])
    ensures Portable(ExecTxs(c, s, txs).state)
  {
    hide Portable, ExecTx, TextTx;
    if txs != [] {
      var n := |txs| - 1;
      TxsKeepPortable(c, s, txs[..n]);
      TxKeepsPortable(c, ExecTxs(c, s, txs[..n]).state, Wrap32(n), txs[n]);
    }
  }

  /** Runs whose denoms and pairs are text only reach states that JSON carries faithfully. */
  lemma {:induction false} TextRunsArePortable(c: Codecs, blocks: seq<Block>)
    requires PriceCodec(c) && TextBlocks(blocks)
    ensures Portable(RunBlocks(c, GENESIS, blocks))
  {
    hide TextTx;
    if blocks != [] {
      var n := |blocks| - 1;
      TextRunsArePortable(c, blocks[..n]);
      TxsKeepPortable(c, Opened(RunBlocks(c, GENESIS, blocks[..n]), blocks[n].height), blocks[n].txs);
    }
  }

  /** The price table of a reachable state is always one that vote extensions can carry. */
  lemma {:induction false} ReachablePricesUsable(c: Codecs, blocks: seq<Block>)
    requires PriceCodec(c)
    ensures UsableTable(RunBlocks(c, GENESIS, blocks).prices)
  {
    if blocks != [] {
      var n := |blocks| - 1;
      ReachablePricesUsable(c, blocks[..n]);
      TxsKeepPricesUsable(c, Opened(RunBlocks(c, GENESIS, blocks[..n]), blocks[n].height), blocks[n].txs);
    }
  }

  lemma {:induction false} TxsKeepPricesUsable(c: Codecs, s: State, txs: seq<Bytes>)
    requires PriceCodec(c) && UsableTable(s.prices)
    ensures UsableTable(ExecTxs(c, s, txs).state.prices)
  {
    hide ExecTx;
    if txs != [] {
      var n := |txs| - 1;
      TxsKeepPricesUsable(c, s, txs[..n]);
      TxKeepsPricesUsable(c, ExecTxs(c, s, txs[..n]).state, Wrap32(n), txs[n]);
    }
  }

  lemma TxKeepsPricesUsable(c: Codecs, s: State, index: Uint32, tx: Bytes)
    requires PriceCodec(c) && UsableTable(s.prices)
    ensures UsableTable(ExecTx(c, s, index, tx).state.prices)
  {
    if tx != [] && tx[0] == TX_ORACLE_UPDATE && |tx| >= 2 && c.decodePrices(tx[1..]).Some? {
      ApplyKeepsPortable(s.prices, c.decodePrices(tx[1..]).value);
      ApplyKeepsSound(s.prices, c.decodePrices(tx[1..]).value);
    }
  }
}
