/** Conservation: what the balances and the locked orders of a run add up to. */
module DexLaws {
  import opened Encoding
  import opened DexState

  // ----- Balances after an update -----

  lemma BalanceAfterSet(s: State, addr: Bytes, denom: Bytes, v: Uint64, a: Bytes, d: Bytes)
    ensures Balance(SetBalance(s, addr, denom, v), a, d) ==
            if a == addr && d == denom then v else Balance(s, a, d)
  {
  }

  lemma BalanceAfterDrop(s: State, addr: Bytes, denom: Bytes, a: Bytes, d: Bytes)
    ensures Balance(DropBalance(s, addr, denom), a, d) ==
            if a == addr && d == denom then 0 else Balance(s, a, d)
  {
    var rest := Denoms(s, addr) - {denom};
    if rest == map[] && a == addr && d != denom {
      assert d !in rest;
      assert d !in Denoms(s, addr);
    }
  }

  // ----- Conservation -----

  /** Funds locked in the owner's orders whose base denom is the given one. */
  function Locked(orders: seq<Order>, owner: Address, denom: Bytes): nat {
    if orders == [] then 0
    else
      var o := orders[|orders| - 1];
      Locked(orders[..|orders| - 1], owner, denom)
      + if o.owner == owner && PairBase(o.pair) == denom then o.amount else 0
  }

  function Holding(s: State, owner: Address, denom: Bytes): nat {
    Balance(s, Hex(owner), denom) + Locked(s.orders, owner, denom)
  }

  /** The amount a transaction moves for this owner and denom, if it is of this kind. */
  function Moved(tx: Bytes, kind: Byte, owner: Address, denom: Bytes): nat {
    if |tx| >= 30 && tx[0] == kind && Owner(tx) == owner && tx[29..] == denom then Amount(tx) else 0
  }

  /** What the successful transactions of this kind move in total. */
  function MovedTotal(c: Codecs, s: State, txs: seq<Bytes>, kind: Byte, owner: Address, denom: Bytes): nat {
    if txs == [] then 0
    else
      var n := |txs| - 1;
      MovedTotal(c, s, txs[..n], kind, owner, denom)
      + Effective(ExecTxs(c, s, txs).outcomes[n], txs[n], kind, owner, denom)
  }

  /** What a transaction with this outcome moves: nothing when it failed. */
  function Effective(outcome: TxOutcome, tx: Bytes, kind: Byte, owner: Address, denom: Bytes): nat {
    if outcome.code == 0 then Moved(tx, kind, owner, denom) else 0
  }

  /** A deposit to this owner and denom that wraps the balance around. */
  function Overflow(s: State, tx: Bytes, owner: Address, denom: Bytes): nat {
    if |tx| >= 30 && tx[0] == TX_DEPOSIT && Owner(tx) == owner && tx[29..] == denom
       && Balance(s, Hex(owner), denom) + Amount(tx) >= TWO64
    then 1 else 0
  }

  lemma CreditConserves(s: State, to: Address, d: Bytes, amount: Uint64, owner: Address, denom: Bytes)
    ensures var after := SetBalance(s, Hex(to), d, Wrap64(Balance(s, Hex(to), d) + amount));
            Holding(after, owner, denom) ==
              Holding(s, owner, denom) +
                if to != owner || d != denom then 0
                else if Balance(s, Hex(to), d) + amount < TWO64 then amount
                else amount - TWO64
  {
    var bal := Balance(s, Hex(to), d);
    BalanceAfterSet(s, Hex(to), d, Wrap64(bal + amount), Hex(owner), denom);
    WrapOnce(bal + amount);
    hide Hex, Locked, Wrap64, Balance;
    if Hex(owner) == Hex(to) {
      HexInjective(owner, to);
    }
  }

  lemma DepositConserves(s: State, index: Uint32, tx: Bytes, owner: Address, denom: Bytes)
    requires tx != [] && tx[0] == TX_DEPOSIT
    ensures var e := Deposit(s, index, tx);
            Holding(e.state, owner, denom) ==
              Holding(s, owner, denom) + Effective(e.outcome, tx, TX_DEPOSIT, owner, denom)
              - Overflow(s, tx, owner, denom) * TWO64
  {
    hide Hex, Holding, SetBalance, Wrap64, Balance;
    if Deposit(s, index, tx).outcome.code == 0 {
      CreditConserves(s, Owner(tx), tx[29..], Amount(tx), owner, denom);
    }
  }

  lemma WithdrawConserves(s: State, index: Uint32, tx: Bytes, owner: Address, denom: Bytes)
    requires tx != [] && tx[0] == TX_WITHDRAW
    ensures var e := Withdraw(s, index, tx);
            Holding(e.state, owner, denom) ==
            Holding(s, owner, denom) - Effective(e.outcome, tx, TX_WITHDRAW, owner, denom)
  {
    var e := Withdraw(s, index, tx);
    hide Hex, Locked;
    if e.outcome.code == 0 {
      var from, amount := Hex(Owner(tx)), Amount(tx);
      var bal := Balance(s, from, tx[29..]);
      BalanceAfterSet(s, from, tx[29..], bal - amount, Hex(owner), denom);
      BalanceAfterDrop(s, from, tx[29..], Hex(owner), denom);
      if Hex(owner) == from {
        HexInjective(owner, Owner(tx));
      }
    }
  }

  lemma LockedAppend(orders: seq<Order>, o: Order, owner: Address, denom: Bytes)
    ensures Locked(orders + [o], owner, denom) ==
            Locked(orders, owner, denom) + if o.owner == owner && PairBase(o.pair) == denom then o.amount else 0
  {
    assert (orders + [o])[..|orders|] == orders;
  }

  lemma LimitOrderConserves(s: State, index: Uint32, tx: Bytes, owner: Address, denom: Bytes)
    ensures Holding(LimitOrder(s, index, tx).state, owner, denom) == Holding(s, owner, denom)
  {
    var e := LimitOrder(s, index, tx);
    hide Hex, Locked, PairBase;
    if e.outcome.code == 0 {
      var from, amount, base := Hex(Owner(tx)), Amount(tx), PairBase(tx[37..]);
      BalanceAfterSet(s, from, base, Balance(s, from, base) - amount, Hex(owner), denom);
      LockedAppend(s.orders, Order(Owner(tx), tx[37..], amount, Price(tx)), owner, denom);
      if Hex(owner) == from {
        HexInjective(owner, Owner(tx));
      }
    }
  }

  /** One transaction: deposits add, withdrawals take off, everything else only moves funds
      between balance and order book; a deposit may wrap the balance around once. */
  lemma TxConserves(c: Codecs, s: State, index: Uint32, tx: Bytes, owner: Address, denom: Bytes)
    ensures var e := ExecTx(c, s, index, tx);
            var inflow := Effective(e.outcome, tx, TX_DEPOSIT, owner, denom);
            var outflow := Effective(e.outcome, tx, TX_WITHDRAW, owner, denom);
            Holding(e.state, owner, denom) ==
              Holding(s, owner, denom) + inflow - outflow - Overflow(s, tx, owner, denom) * TWO64
  {
    hide Holding, Deposit, Withdraw, LimitOrder;
    if tx == [] {
    } else if tx[0] == TX_DEPOSIT {
      DepositConserves(s, index, tx, owner, denom);
    } else if tx[0] == TX_WITHDRAW {
      WithdrawConserves(s, index, tx, owner, denom);
    } else if tx[0] == TX_LIMIT_ORDER {
      LimitOrderConserves(s, index, tx, owner, denom);
    } else if tx[0] == TX_ORACLE_UPDATE {
      OracleConserves(c, s, index, tx, owner, denom);
    }
  }

  lemma OracleConserves(c: Codecs, s: State, index: Uint32, tx: Bytes, owner: Address, denom: Bytes)
    ensures Holding(OracleUpdate(c, s, index, tx).state, owner, denom) == Holding(s, owner, denom)
  {
  }

  lemma NoOverflowBelow(c: Codecs, s: State, index: Uint32, tx: Bytes, owner: Address, denom: Bytes)
    requires Holding(s, owner, denom) + Effective(ExecTx(c, s, index, tx).outcome, tx, TX_DEPOSIT, owner, denom) < TWO64
    ensures Overflow(s, tx, owner, denom) == 0
  {
    hide Hex, Balance, Locked, SetBalance;
  }

  /** How many deposits of a transaction list wrap the balance. */
  function Overflows(c: Codecs, s: State, txs: seq<Bytes>, owner: Address, denom: Bytes): nat {
    if txs == [] then 0
    else
      var n := |txs| - 1;
      Overflows(c, s, txs[..n], owner, denom) + Overflow(ExecTxs(c, s, txs[..n]).state, txs[n], owner, denom)
  }

  lemma {:induction false} TxsConserve(c: Codecs, s: State, txs: seq<Bytes>, owner: Address, denom: Bytes)
    ensures var deposits := MovedTotal(c, s, txs, TX_DEPOSIT, owner, denom);
            var withdrawals := MovedTotal(c, s, txs, TX_WITHDRAW, owner, denom);
            var overflows := Overflows(c, s, txs, owner, denom);
            && Holding(ExecTxs(c, s, txs).state, owner, denom) ==
               Holding(s, owner, denom) + deposits - withdrawals - overflows * TWO64
            && (Holding(s, owner, denom) + deposits < TWO64 ==> overflows == 0)
  {
    hide Holding, ExecTx, Moved, Overflow;
    if txs != [] {
      var n := |txs| - 1;
      var prior := ExecTxs(c, s, txs[..n]).state;
      TxsConserve(c, s, txs[..n], owner, denom);
      TxConserves(c, prior, Wrap32(n), txs[n], owner, denom);
      if Holding(s, owner, denom) + MovedTotal(c, s, txs, TX_DEPOSIT, owner, denom) < TWO64 {
        NoOverflowBelow(c, prior, Wrap32(n), txs[n], owner, denom);
      }
    }
  }

  /** Totals over the blocks of a run. */
  function RunMoved(c: Codecs, s: State, blocks: seq<Block>, kind: Byte, owner: Address, denom: Bytes): nat {
    if blocks == [] then 0
    else
      var n := |blocks| - 1;
      var b := blocks[n];
      RunMoved(c, s, blocks[..n], kind, owner, denom)
      + MovedTotal(c, Opened(RunBlocks(c, s, blocks[..n]), b.height), b.txs, kind, owner, denom)
  }

  function RunOverflows(c: Codecs, s: State, blocks: seq<Block>, owner: Address, denom: Bytes): nat {
    if blocks == [] then 0
    else
      var n := |blocks| - 1;
      var b := blocks[n];
      RunOverflows(c, s, blocks[..n], owner, denom)
      + Overflows(c, Opened(RunBlocks(c, s, blocks[..n]), b.height), b.txs, owner, denom)
  }

  lemma {:induction false} RunConserves(c: Codecs, s: State, blocks: seq<Block>, owner: Address, denom: Bytes)
    ensures var deposits := RunMoved(c, s, blocks, TX_DEPOSIT, owner, denom);
            var withdrawals := RunMoved(c, s, blocks, TX_WITHDRAW, owner, denom);
            var overflows := RunOverflows(c, s, blocks, owner, denom);
            && Holding(RunBlocks(c, s, blocks), owner, denom) ==
               Holding(s, owner, denom) + deposits - withdrawals - overflows * TWO64
            && (Holding(s, owner, denom) + deposits < TWO64 ==> overflows == 0)
  {
    hide ExecTxs, MovedTotal, Overflows;
    if blocks != [] {
      var n := |blocks| - 1;
      RunConserves(c, s, blocks[..n], owner, denom);
      var started := Opened(RunBlocks(c, s, blocks[..n]), blocks[n].height);
      assert Holding(started, owner, denom) == Holding(RunBlocks(c, s, blocks[..n]), owner, denom);
      hide Holding;
      TxsConserve(c, started, blocks[n].txs, owner, denom);
    }
  }

  lemma GenesisHoldsNothing(owner: Address, denom: Bytes)
    ensures Holding(GENESIS, owner, denom) == 0
  {
  }

  /** From genesis, balance plus locked funds equals deposits minus withdrawals modulo 2^64, and
      exactly when no deposit wrapped the balance; none does while the deposits of this owner in
      this denom total less than 2^64. */
  lemma Conservation(c: Codecs, blocks: seq<Block>, owner: Address, denom: Bytes)
    ensures var held := Holding(RunBlocks(c, GENESIS, blocks), owner, denom);
            var deposits := RunMoved(c, GENESIS, blocks, TX_DEPOSIT, owner, denom);
            var withdrawals := RunMoved(c, GENESIS, blocks, TX_WITHDRAW, owner, denom);
            && Wrap64(held) == Wrap64(deposits - withdrawals)
            && (held == deposits - withdrawals <==> RunOverflows(c, GENESIS, blocks, owner, denom) == 0)
            && (deposits < TWO64 ==> held == deposits - withdrawals)
  {
    hide Holding, RunMoved, RunOverflows, RunBlocks, Wrap64;
    GenesisHoldsNothing(owner, denom);
    RunConserves(c, GENESIS, blocks, owner, denom);
    var held := Holding(RunBlocks(c, GENESIS, blocks), owner, denom);
    WrapShift(held, RunOverflows(c, GENESIS, blocks, owner, denom));
  }

  lemma WrapShift(n: int, k: nat)
    ensures Wrap64(n) == Wrap64(n + k * TWO64)
  {
    if k > 0 {
      WrapShift(n, k - 1);
      assert n + k * TWO64 == n + (k - 1) * TWO64 + TWO64;
      assert Wrap64(n + (k - 1) * TWO64 + TWO64) == Wrap64(n + (k - 1) * TWO64);
    }
  }
}
