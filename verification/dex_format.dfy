/** The binary transaction format, the mempool gate, and what one transaction undoes. */
module DexFormat {
  import opened Encoding
  import opened DexState
  import opened DexReachable
  import DexLaws

  function LedgerTx(kind: Byte, owner: Address, amount: Uint64, denom: Bytes): Bytes {
    [kind] + owner + PutUint64(amount) + denom
  }

  function DepositTx(owner: Address, amount: Uint64, denom: Bytes): Bytes {
    LedgerTx(TX_DEPOSIT, owner, amount, denom)
  }

  function WithdrawTx(owner: Address, amount: Uint64, denom: Bytes): Bytes {
    LedgerTx(TX_WITHDRAW, owner, amount, denom)
  }

  function LimitOrderTx(owner: Address, amount: Uint64, price: Uint64, pair: Bytes): Bytes {
    [TX_LIMIT_ORDER] + owner + PutUint64(amount) + PutUint64(price) + pair
  }

  /** The bytes of a deposit and a withdrawal, by position. */
  lemma LedgerTxLayout(owner: Address, amount: Uint64, denom: Bytes)
    ensures var d, w := DepositTx(owner, amount, denom), WithdrawTx(owner, amount, denom);
            && |d| == |w| == 29 + |denom| && d[0] == 1 && w[0] == 2 && d[1..] == w[1..]
            && d[1..21] == owner && d[21..29] == PutUint64(amount) && d[29..] == denom
  {
    hide PutUint64;
  }

  /** The bytes of a limit order, by position: the amount before the price. */
  lemma LimitOrderTxLayout(owner: Address, amount: Uint64, price: Uint64, pair: Bytes)
    ensures var tx := LimitOrderTx(owner, amount, price, pair);
            && |tx| == 37 + |pair| && tx[0] == 3 && tx[1..21] == owner && tx[21..29] == PutUint64(amount)
            && tx[29..37] == PutUint64(price) && tx[37..] == pair
  {
    hide PutUint64;
  }

  /** The handlers read back exactly what the builder wrote. */
  lemma LedgerTxFields(kind: Byte, owner: Address, amount: Uint64, denom: Bytes)
    ensures var tx := LedgerTx(kind, owner, amount, denom);
            |tx| == 29 + |denom| && tx[0] == kind && Owner(tx) == owner && Amount(tx) == amount && tx[29..] == denom
  {
    var tx := LedgerTx(kind, owner, amount, denom);
    hide PutUint64, GetUint64;
    assert tx[1..21] == owner;
    assert tx[21..] == PutUint64(amount) + denom;
    GetPutUint64(amount, denom);
    assert tx[29..] == denom;
  }

  lemma LimitOrderTxFields(owner: Address, amount: Uint64, price: Uint64, pair: Bytes)
    ensures var tx := LimitOrderTx(owner, amount, price, pair);
            && |tx| == 37 + |pair| && tx[0] == TX_LIMIT_ORDER && Owner(tx) == owner
            && Amount(tx) == amount && Price(tx) == price && tx[37..] == pair
  {
    var tx := LimitOrderTx(owner, amount, price, pair);
    hide PutUint64, GetUint64;
    assert tx[1..21] == owner;
    assert tx[21..] == PutUint64(amount) + (PutUint64(price) + pair);
    assert tx[29..] == PutUint64(price) + pair;
    GetPutUint64(amount, PutUint64(price) + pair);
    GetPutUint64(price, pair);
    assert tx[37..] == pair;
  }

  /** Conversely every transaction long enough for its kind is the encoding of its fields. */
  lemma LedgerTxOnto(tx: Bytes)
    requires |tx| >= 29
    ensures LedgerTx(tx[0], Owner(tx), Amount(tx), tx[29..]) == tx
  {
    hide PutUint64, GetUint64;
    PutGetUint64(tx[21..]);
    assert tx == [tx[0]] + tx[1..21] + tx[21..][..8] + tx[29..];
  }

  lemma LimitOrderTxOnto(tx: Bytes)
    requires |tx| >= 37 && tx[0] == TX_LIMIT_ORDER
    ensures LimitOrderTx(Owner(tx), Amount(tx), Price(tx), tx[37..]) == tx
  {
    hide PutUint64, GetUint64;
    PutGetUint64(tx[21..]);
    PutGetUint64(tx[29..]);
    assert tx == [tx[0]] + tx[1..21] + tx[21..][..8] + tx[29..][..8] + tx[37..];
  }

  // ----- The mempool gate -----

  datatype GateVerdict = Rejected | Accepted(priority: int, sender: Bytes)

  function CheckTx(tx: Bytes): GateVerdict {
    if tx == [] then Rejected
    else if tx[0] == TX_DEPOSIT || tx[0] == TX_WITHDRAW then
      if |tx| < 30 then Rejected else Accepted(10, Hex(tx[1..21]))
    else if tx[0] == TX_LIMIT_ORDER then
      if |tx| < 38 then Rejected else Accepted(5, Hex(tx[1..21]))
    else Rejected
  }

  predicate Malformed(info: Info) { info.EmptyTx? || info.UnknownType? || info.TooShort? }

  /** The gate rejects oracle updates, and otherwise exactly the transactions that execution
      rejects for their form, in every state. */
  lemma GateAgreesWithExecution(c: Codecs, s: State, index: Uint32, tx: Bytes)
    ensures var info := ExecTx(c, s, index, tx).outcome.info;
            CheckTx(tx).Rejected? <==> (tx != [] && tx[0] == TX_ORACLE_UPDATE) || Malformed(info)
    ensures Malformed(ExecTx(c, s, index, tx).outcome.info) ==> ExecTx(c, s, index, tx).outcome.code == 1
  {
  }

  /** Well-formed deposits, withdrawals and limit orders pass, with their priority and the owner as
      the sender; everything else is rejected. */
  lemma CheckTxMeans(tx: Bytes)
    ensures CheckTx(tx) ==
              if |tx| >= 30 && 1 <= tx[0] <= 2 then Accepted(10, Hex(tx[1..21]))
              else if |tx| >= 38 && tx[0] == 3 then Accepted(5, Hex(tx[1..21]))
              else Rejected
  {
    hide Hex;
  }

  lemma DepositState(c: Codecs, s: State, index: Uint32, owner: Address, amount: Uint64, denom: Bytes)
    requires amount != 0 && denom != []
    ensures ExecTx(c, s, index, DepositTx(owner, amount, denom)).state ==
              SetBalance(s, Hex(owner), denom, Wrap64(Balance(s, Hex(owner), denom) + amount))
  {
    LedgerTxFields(TX_DEPOSIT, owner, amount, denom);
    hide Hex, LedgerTx, PutUint64, SetBalance, Balance, Withdraw, LimitOrder, OracleUpdate, Wrap64;
  }

  // ----- Overflowing deposits -----

  lemma TwoTxs(c: Codecs, s: State, first: Bytes, second: Bytes, owner: Address, denom: Bytes)
    ensures var txs, mid := [first, second], ExecTx(c, s, 0, first).state;
            && ExecTxs(c, s, txs).state == ExecTx(c, mid, 1, second).state
            && DexLaws.Overflows(c, s, txs, owner, denom) ==
               DexLaws.Overflow(s, first, owner, denom) + DexLaws.Overflow(mid, second, owner, denom)
  {
    hide ExecTx, DexLaws.Overflow;
    var one: seq<Bytes> := [first];
    var both := one + [second];
    assert one[..0] == [] && both[..1] == one;
    assert Wrap32(0) == 0 && Wrap32(1) == 1;
    assert ExecTxs(c, s, one).state == ExecTx(c, s, 0, first).state;
    assert DexLaws.Overflows(c, s, one, owner, denom) == DexLaws.Overflow(s, first, owner, denom);
    assert ExecTxs(c, s, both).state == ExecTx(c, ExecTxs(c, s, one).state, 1, second).state;
    assert both == [first, second];
  }

  /** A run in which funds disappear: a deposit of 2^64 - 1 and one of 1 leave nothing. */
  lemma FundsCanVanish(c: Codecs, owner: Address, denom: Bytes)
    requires denom != []
    ensures var txs := [DepositTx(owner, TWO64 - 1, denom), DepositTx(owner, 1, denom)];
            && DexLaws.Holding(ExecTxs(c, GENESIS, txs).state, owner, denom) == 0
            && DexLaws.Overflows(c, GENESIS, txs, owner, denom) == 1
  {
    hide ExecTx, ExecTxs, Hex, LedgerTx, PutUint64, GetUint64, SetBalance, DexLaws.Overflows;
    var first, second := DepositTx(owner, TWO64 - 1, denom), DepositTx(owner, 1, denom);
    var addr := Hex(owner);
    TwoTxs(c, GENESIS, first, second, owner, denom);
    var mid := SetBalance(GENESIS, addr, denom, TWO64 - 1);
    DepositState(c, GENESIS, 0, owner, TWO64 - 1, denom);
    DexLaws.BalanceAfterSet(GENESIS, addr, denom, TWO64 - 1, addr, denom);
    DepositState(c, mid, 1, owner, 1, denom);
    DexLaws.BalanceAfterSet(mid, addr, denom, 0, addr, denom);
    LedgerTxFields(TX_DEPOSIT, owner, TWO64 - 1, denom);
    LedgerTxFields(TX_DEPOSIT, owner, 1, denom);
    OrdersKept(GENESIS, addr, denom, TWO64 - 1);
    OrdersKept(mid, addr, denom, 0);
  }

  lemma OrdersKept(s: State, addr: Bytes, denom: Bytes, v: Uint64)
    ensures SetBalance(s, addr, denom, v).orders == s.orders
  {
  }

  // ----- Undoing a deposit -----

  lemma WithdrawState(c: Codecs, s: State, owner: Address, amount: Uint64, denom: Bytes)
    requires amount != 0 && denom != []
    ensures var addr, bal := Hex(owner), Balance(s, Hex(owner), denom);
            ExecTx(c, s, 1, WithdrawTx(owner, amount, denom)).state ==
              if bal < amount then s
              else if bal == amount then DropBalance(s, addr, denom)
              else SetBalance(s, addr, denom, bal - amount)
  {
    LedgerTxFields(TX_WITHDRAW, owner, amount, denom);
    hide Hex, LedgerTx, PutUint64, SetBalance, DropBalance, Balance, Deposit, LimitOrder, OracleUpdate;
  }

  /** Depositing and withdrawing the same amount restores the state exactly when the deposit
      does not wrap and the denom is not already there with balance zero, as a limit order
      leaves it. */
  lemma WithdrawUndoesDeposit(c: Codecs, s: State, owner: Address, amount: Uint64, denom: Bytes)
    requires Sound(s) && amount != 0 && denom != []
    ensures var mid := ExecTx(c, s, 0, DepositTx(owner, amount, denom)).state;
            var end := ExecTx(c, mid, 1, WithdrawTx(owner, amount, denom)).state;
            end == s <==>
            && Balance(s, Hex(owner), denom) + amount < TWO64
            && (denom in Denoms(s, Hex(owner)) ==> Balance(s, Hex(owner), denom) != 0)
  {
    hide ExecTx, Hex, Wrap64, Sound, DepositTx, WithdrawTx, Balance, SetBalance, DropBalance, Denoms;
    var addr := Hex(owner);
    var bal := Balance(s, addr, denom);
    var sum := Wrap64(bal + amount);
    WrapOnce(bal + amount);
    DexLaws.BalanceAfterSet(s, addr, denom, sum, addr, denom);
    DepositState(c, s, 0, owner, amount, denom);
    WithdrawState(c, SetBalance(s, addr, denom, sum), owner, amount, denom);
    DepositThenWithdraw(s, addr, denom, amount, sum);
  }

  lemma DepositThenWithdraw(s: State, addr: Bytes, denom: Bytes, amount: Uint64, sum: Uint64)
    requires Sound(s) && amount != 0
    requires var bal := Balance(s, addr, denom);
             sum == if bal + amount < TWO64 then bal + amount else bal + amount - TWO64
    ensures var bal, mid := Balance(s, addr, denom), SetBalance(s, addr, denom, sum);
            var end := if sum < amount then mid
                       else if sum == amount then DropBalance(mid, addr, denom)
                       else SetBalance(mid, addr, denom, sum - amount);
            end == s <==> bal + amount < TWO64 && (denom in Denoms(s, addr) ==> bal != 0)
  {
    var bal, mid := Balance(s, addr, denom), SetBalance(s, addr, denom, sum);
    if bal + amount >= TWO64 {
      assert Balance(mid, addr, denom) == sum != bal;
    } else if bal == 0 {
      var end := DropBalance(mid, addr, denom);
      assert Denoms(mid, addr) - {denom} == Denoms(s, addr) - {denom};
      if denom in Denoms(s, addr) {
        assert denom !in Denoms(end, addr);
      } else {
        assert Denoms(s, addr) - {denom} == Denoms(s, addr);
        assert end.balances == s.balances;
      }
    } else {
      assert Denoms(mid, addr)[denom := bal] == Denoms(s, addr);
      assert SetBalance(mid, addr, denom, bal).balances == s.balances;
    }
  }

  /** The round trip of a deposit fails where a deposit wraps. */
  lemma OverflowSpoilsUndo(c: Codecs, owner: Address, denom: Bytes)
    requires denom != []
    ensures var s := ExecTx(c, GENESIS, 0, DepositTx(owner, TWO64 - 1, denom)).state;
            var mid := ExecTx(c, s, 0, DepositTx(owner, 1, denom)).state;
            ExecTx(c, mid, 1, WithdrawTx(owner, 1, denom)).state != s
  {
    hide ExecTx, Hex, DepositTx, WithdrawTx, Balance, SetBalance, Sound, Denoms;
    var addr := Hex(owner);
    GenesisIsSound();
    DepositState(c, GENESIS, 0, owner, TWO64 - 1, denom);
    DexLaws.BalanceAfterSet(GENESIS, addr, denom, TWO64 - 1, addr, denom);
    GenesisBalance(addr, denom);
    var s := ExecTx(c, GENESIS, 0, DepositTx(owner, TWO64 - 1, denom)).state;
    TxKeepsSound(c, GENESIS, 0, DepositTx(owner, TWO64 - 1, denom));
    WithdrawUndoesDeposit(c, s, owner, 1, denom);
  }

  lemma GenesisIsSound()
    ensures Sound(GENESIS)
  {
  }

  lemma GenesisBalance(addr: Bytes, denom: Bytes)
    ensures Balance(GENESIS, addr, denom) == 0
  {
  }

  lemma LimitOrderState(c: Codecs, s: State, index: Uint32, owner: Address, amount: Uint64, price: Uint64, pair: Bytes)
    requires amount != 0 && price != 0 && pair != [] && Balance(s, Hex(owner), PairBase(pair)) >= amount
    ensures var addr, base := Hex(owner), PairBase(pair);
            ExecTx(c, s, index, LimitOrderTx(owner, amount, price, pair)).state ==
              SetBalance(s, addr, base, Balance(s, addr, base) - amount)
              .(orders := s.orders + [Order(owner, pair, amount, price)], ordersNil := false)
  {
    LimitOrderTxFields(owner, amount, price, pair);
    hide Hex, LimitOrderTx, PutUint64, SetBalance, Balance, PairBase, Deposit, Withdraw, OracleUpdate;
  }

  lemma KeptAtZero(s: State, addr: Bytes, denom: Bytes, orders: seq<Order>)
    ensures var t := SetBalance(s, addr, denom, 0).(orders := orders, ordersNil := false);
            denom in Denoms(t, addr) && Balance(t, addr, denom) == 0
  {
  }

  /** A limit order that takes the whole balance keeps the denom at zero; from there no deposit
      is undone by withdrawing it, since that deletes the denom. */
  lemma LimitOrderSpoilsUndo(c: Codecs, owner: Address, denom: Bytes, amount: Uint64, price: Uint64, pair: Bytes,
      again: Uint64)
    requires amount != 0 && price != 0 && again != 0 && denom != [] && PairBase(pair) == denom
    ensures var txs := [DepositTx(owner, amount, denom), LimitOrderTx(owner, amount, price, pair)];
            var s := ExecTxs(c, GENESIS, txs).state;
            var mid := ExecTx(c, s, 0, DepositTx(owner, again, denom)).state;
            && denom in Denoms(s, Hex(owner)) && Balance(s, Hex(owner), denom) == 0
            && ExecTx(c, mid, 1, WithdrawTx(owner, again, denom)).state != s
  {
    hide ExecTx, ExecTxs, Hex, DepositTx, LimitOrderTx, WithdrawTx, Balance, SetBalance, Sound, Denoms,
         DexLaws.Overflow, DexLaws.Overflows;
    var addr := Hex(owner);
    var first, second := DepositTx(owner, amount, denom), LimitOrderTx(owner, amount, price, pair);
    TwoTxs(c, GENESIS, first, second, owner, denom);
    DepositState(c, GENESIS, 0, owner, amount, denom);
    GenesisBalance(addr, denom);
    var mid := SetBalance(GENESIS, addr, denom, amount);
    DexLaws.BalanceAfterSet(GENESIS, addr, denom, amount, addr, denom);
    LimitOrderState(c, mid, 1, owner, amount, price, pair);
    KeptAtZero(mid, addr, denom, mid.orders + [Order(owner, pair, amount, price)]);
    GenesisIsSound();
    TxsKeepSound(c, GENESIS, [first, second]);
    WithdrawUndoesDeposit(c, ExecTxs(c, GENESIS, [first, second]).state, owner, again, denom);
  }
}
