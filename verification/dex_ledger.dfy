/** The DEX state as the program keeps it: nested mutable maps and a growing order buffer.
    View gives the logical state of module DexState. */
module DexLedger {
  import opened Encoding
  import opened DexState

  /** A Go map: a reference to shared, mutable storage. */
  class GoMap<V> {
    var m: map<Bytes, V>

    constructor ()
      ensures m == map[]
    {
      m := map[];
    }
  }

  /** Copies a map entry by entry, in any order. */
  method CopyMap(src: GoMap<Uint64>) returns (dst: GoMap<Uint64>)
    ensures fresh(dst) && dst.m == src.m
  {
    dst := new GoMap();
    var todo := src.m.Keys;
    while todo != {}
      invariant todo <= src.m.Keys
      invariant src.m == old(src.m)
      invariant dst.m == map k | k in src.m && k !in todo :: src.m[k]
      decreases todo
    {
      var k :| k in todo;
      dst.m := dst.m[k := src.m[k]];
      todo := todo - {k};
    }
  }

  lemma DropAfterSet(s: State, addr: Bytes, denom: Bytes, v: Uint64)
    ensures DropBalance(SetBalance(s, addr, denom, v), addr, denom) == DropBalance(s, addr, denom)
    ensures Balance(DropBalance(s, addr, denom), addr, denom) == 0
  {
    var set1 := SetBalance(s, addr, denom, v);
    assert Denoms(set1, addr) - {denom} == Denoms(s, addr) - {denom};
    assert set1.balances - {addr} == s.balances - {addr};
  }

  lemma SetAfterEnsure(s: State, addr: Bytes, denom: Bytes, v: Uint64)
    ensures var ensured := s.(balances := s.balances[addr := Denoms(s, addr)]);
            && Balance(ensured, addr, denom) == Balance(s, addr, denom)
            && SetBalance(ensured, addr, denom, v) == SetBalance(s, addr, denom, v)
    ensures Balance(SetBalance(s, addr, denom, v), addr, denom) == v
  {
    var ensured := s.(balances := s.balances[addr := Denoms(s, addr)]);
    assert Denoms(ensured, addr) == Denoms(s, addr);
    assert SetBalance(ensured, addr, denom, v).balances == SetBalance(s, addr, denom, v).balances;
  }

  class Ledger {
    var height: Uint64
    var balances: GoMap<GoMap<Uint64>>
    var orderBuf: array?<Order>
    var orderLen: nat
    var prices: GoMap<Uint64>
    ghost var Repr: set<object>

    ghost predicate Valid()
      reads this, Repr
      ensures Valid() ==> this in Repr
    {
      && this in Repr && balances in Repr && prices in Repr
      && (forall a | a in balances.m :: balances.m[a] in Repr && balances.m[a] != prices)
      && (forall a, b | a in balances.m && b in balances.m && a != b :: balances.m[a] != balances.m[b])
      && (orderBuf == null ==> orderLen == 0)
      && (orderBuf != null ==> orderBuf in Repr && orderLen <= orderBuf.Length)
    }

    function BalancesView(): map<Bytes, map<Bytes, Uint64>>
      requires Valid()
      reads this, Repr
    {
      map a | a in balances.m :: balances.m[a].m
    }

    function View(): State
      requires Valid()
      reads this, Repr
    {
      State(height, BalancesView(), if orderBuf == null then [] else orderBuf[..orderLen], orderBuf == null, prices.m)
    }

    constructor ()
      ensures Valid() && fresh(Repr) && View() == GENESIS
    {
      var b := new GoMap<GoMap<Uint64>>();
      var p := new GoMap<Uint64>();
      height, balances, orderBuf, orderLen, prices := 0, b, null, 0, p;
      Repr := {this, b, p};
    }

    constructor Raw(h: Uint64, b: GoMap<GoMap<Uint64>>, buf: array?<Order>, p: GoMap<Uint64>)
      requires forall x, y | x in b.m && y in b.m && x != y :: b.m[x] != b.m[y]
      requires forall x | x in b.m :: b.m[x] != p
      ensures Valid()
      ensures forall o | o in Repr :: o == this || o == b || o == p || o == buf || exists a | a in b.m :: o == b.m[a]
      ensures View() == State(h, map a | a in b.m :: b.m[a].m, if buf == null then [] else buf[..], buf == null, p.m)
    {
      height, balances, orderBuf, prices := h, b, buf, p;
      orderLen := if buf == null then 0 else buf.Length;
      Repr := {this, b, p} + set a | a in b.m :: b.m[a];
      new;
      if buf != null {
        Repr := Repr + {buf};
      }
      assert orderBuf != null ==> orderBuf[..orderLen] == orderBuf[..];
    }

    method CloneBalances() returns (b: GoMap<GoMap<Uint64>>)
      requires Valid()
      ensures fresh(b) && b.m.Keys == balances.m.Keys
      ensures forall a | a in b.m :: fresh(b.m[a]) && b.m[a].m == balances.m[a].m
      ensures forall x, y | x in b.m && y in b.m && x != y :: b.m[x] != b.m[y]
    {
      b := new GoMap();
      var todo := balances.m.Keys;
      while todo != {}
        invariant todo <= balances.m.Keys
        invariant fresh(b) && b.m.Keys == balances.m.Keys - todo
        invariant forall a | a in b.m :: fresh(b.m[a]) && b.m[a].m == balances.m[a].m
        invariant forall x, y | x in b.m && y in b.m && x != y :: b.m[x] != b.m[y]
        decreases todo
      {
        var a :| a in todo;
        var inner := CopyMap(balances.m[a]);
        b.m := b.m[a := inner];
        todo := todo - {a};
      }
    }

    method CloneOrders() returns (buf: array<Order>)
      requires Valid()
      ensures fresh(buf) && buf[..] == View().orders
    {
      buf := new Order[orderLen];
      if orderBuf != null {
        forall i | 0 <= i < orderLen {
          buf[i] := orderBuf[i];
        }
      }
    }

    /** A deep copy that shares no storage with the original. */
    method Clone() returns (c: Ledger)
      requires Valid()
      ensures c.Valid() && fresh(c.Repr)
      ensures c.View() == View().(ordersNil := false)
    {
      var b := CloneBalances();
      var buf := CloneOrders();
      var p := CopyMap(prices);
      c := new Ledger.Raw(height, b, buf, p);
      assert c.View().balances == BalancesView();
    }

    /** What decoding builds: a new ledger with the given contents. */
    static method Restore(s: State) returns (l: Ledger)
      requires s.ordersNil ==> s.orders == []
      ensures l.Valid() && fresh(l.Repr) && l.View() == s
    {
      var p := new GoMap<Uint64>();
      p.m := s.prices;
      var buf: array?<Order> := null;
      if !s.ordersNil {
        buf := new Order[|s.orders|](i requires 0 <= i < |s.orders| => s.orders[i]);
        assert buf[..] == s.orders;
      }
      var b := RestoreBalances(s.balances);
      l := new Ledger.Raw(s.height, b, buf, p);
      assert l.View().balances == s.balances;
    }

    static method RestoreBalances(balances: map<Bytes, map<Bytes, Uint64>>) returns (b: GoMap<GoMap<Uint64>>)
      ensures fresh(b) && b.m.Keys == balances.Keys
      ensures forall a | a in b.m :: fresh(b.m[a]) && b.m[a].m == balances[a]
      ensures forall x, y | x in b.m && y in b.m && x != y :: b.m[x] != b.m[y]
    {
      b := new GoMap();
      var todo := balances.Keys;
      while todo != {}
        invariant todo <= balances.Keys
        invariant fresh(b) && b.m.Keys == balances.Keys - todo
        invariant forall a | a in b.m :: fresh(b.m[a]) && b.m[a].m == balances[a]
        invariant forall x, y | x in b.m && y in b.m && x != y :: b.m[x] != b.m[y]
        decreases todo
      {
        var a :| a in todo;
        var inner := new GoMap<Uint64>();
        inner.m := balances[a];
        b.m := b.m[a := inner];
        todo := todo - {a};
      }
    }

    // ----- Reads and writes of single entries -----

    /** The balance of an address in a denom, zero when either is missing. */
    function BalanceOf(addr: Bytes, denom: Bytes): (v: Uint64)
      requires Valid()
      reads this, Repr
      ensures v == Balance(View(), addr, denom)
    {
      if addr in balances.m && denom in balances.m[addr].m then balances.m[addr].m[denom] else 0
    }

    /** Overwrites a balance. Go panics on a write through a missing inner map, so
        every caller has to show that the address is present. */
    method SetEntry(addr: Bytes, denom: Bytes, v: Uint64)
      requires Valid() && addr in balances.m
      modifies balances.m[addr]
      ensures Valid() && Repr == old(Repr)
      ensures View() == SetBalance(old(View()), addr, denom, v)
    {
      var inner := balances.m[addr];
      inner.m := inner.m[denom := v];
      assert BalancesView() == old(BalancesView())[addr := inner.m];
    }

    /** Creates the inner map of an address that has none. */
    method EnsureAddress(addr: Bytes)
      requires Valid()
      modifies `Repr, balances
      ensures Valid() && fresh(Repr - old(Repr)) && old(Repr) <= Repr
      ensures addr in balances.m
      ensures View() == old(View()).(balances := old(View()).balances[addr := Denoms(old(View()), addr)])
    {
      if addr !in balances.m {
        AddAddress(addr);
      } else {
        assert BalancesView() == BalancesView()[addr := BalancesView()[addr]];
      }
    }

    method AddAddress(addr: Bytes)
      requires Valid() && addr !in balances.m
      modifies `Repr, balances
      ensures Valid() && fresh(Repr - old(Repr)) && old(Repr) <= Repr
      ensures addr in balances.m
      ensures View() == old(View()).(balances := old(View()).balances[addr := map[]])
    {
      var inner := new GoMap<Uint64>();
      balances.m := balances.m[addr := inner];
      Repr := Repr + {inner};
      assert BalancesView() == old(BalancesView())[addr := map[]];
    }

    /** Removes a denom, and the address with it when it was the last one. */
    method RemoveEntry(addr: Bytes, denom: Bytes)
      requires Valid() && addr in balances.m
      modifies balances, balances.m[addr]
      ensures Valid() && Repr == old(Repr)
      ensures View() == DropBalance(old(View()), addr, denom)
    {
      var inner := balances.m[addr];
      inner.m := inner.m - {denom};
      if inner.m == map[] {
        balances.m := balances.m - {addr};
        assert BalancesView() == old(BalancesView()) - {addr};
      } else {
        assert BalancesView() == old(BalancesView())[addr := inner.m];
      }
    }

    method SetHeight(h: Uint64)
      requires Valid()
      modifies `height
      ensures Valid() && View() == old(View()).(height := h)
    {
      height := h;
    }

    /** Adds an order at the end: in place while there is room, else in a larger buffer. */
    method AppendOrder(order: Order)
      requires Valid()
      modifies this, orderBuf
      ensures Valid() && fresh(Repr - old(Repr))
      ensures orderLen == |old(View()).orders| + 1
      ensures View() == old(View()).(orders := old(View()).orders + [order], ordersNil := false)
    {
      ghost var before := View().orders;
      if orderBuf == null || orderLen == orderBuf.Length {
        Grow();
      }
      orderBuf[orderLen] := order;
      orderLen := orderLen + 1;
      assert orderBuf[..orderLen] == before + [order];
      assert BalancesView() == old(BalancesView());
    }

    /** Moves the orders into a larger buffer. */
    method Grow()
      requires Valid()
      modifies `orderBuf, `Repr
      ensures Valid() && fresh(Repr - old(Repr))
      ensures orderBuf != null && fresh(orderBuf) && orderLen < orderBuf.Length
      ensures View() == old(View()).(ordersNil := false)
    {
      ghost var before := View().orders;
      var grown := new Order[2 * orderLen + 1];
      if orderBuf != null {
        forall i | 0 <= i < orderLen {
          grown[i] := orderBuf[i];
        }
      }
      orderBuf := grown;
      Repr := Repr + {grown};
      assert orderBuf[..orderLen] == before;
      assert BalancesView() == old(BalancesView());
    }

    // ----- The ledger part of each handler -----

    /** Creates the inner map when missing and adds with uint64 wrap-around. */
    method Credit(addr: Bytes, denom: Bytes, amount: Uint64) returns (bal: Uint64)
      requires Valid()
      modifies Repr
      ensures Valid() && fresh(Repr - old(Repr))
      ensures bal == Wrap64(Balance(old(View()), addr, denom) + amount)
      ensures View() == SetBalance(old(View()), addr, denom, bal)
    {
      hide View, Balance, SetBalance, Wrap64;
      ghost var s := View();
      EnsureAddress(addr);
      SetAfterEnsure(s, addr, denom, Wrap64(Balance(s, addr, denom) + amount));
      SetEntry(addr, denom, Wrap64(BalanceOf(addr, denom) + amount));
      bal := BalanceOf(addr, denom);
    }

    /** Subtracts, and removes what became zero. */
    method Debit(addr: Bytes, denom: Bytes, amount: Uint64) returns (bal: Uint64)
      requires Valid() && 0 < amount <= Balance(View(), addr, denom)
      modifies Repr
      ensures Valid() && fresh(Repr - old(Repr))
      ensures bal == Balance(old(View()), addr, denom) - amount
      ensures View() == if bal == 0 then DropBalance(old(View()), addr, denom)
                        else SetBalance(old(View()), addr, denom, bal)
    {
      ghost var s := View();
      SetAfterEnsure(s, addr, denom, Balance(s, addr, denom) - amount);
      SetEntry(addr, denom, BalanceOf(addr, denom) - amount);
      bal := BalanceOf(addr, denom);
      if bal == 0 {
        DropAfterSet(s, addr, denom, bal);
        RemoveEntry(addr, denom);
        bal := BalanceOf(addr, denom);
      }
    }

    /** Takes the amount off the balance and puts the order on the book. */
    method Lock(addr: Bytes, denom: Bytes, order: Order)
      requires Valid() && 0 < order.amount <= Balance(View(), addr, denom)
      modifies Repr
      ensures Valid() && fresh(Repr - old(Repr))
      ensures orderLen == |old(View()).orders| + 1
      ensures var s := old(View());
              View() == SetBalance(s, addr, denom, Balance(s, addr, denom) - order.amount)
                        .(orders := s.orders + [order], ordersNil := false)
    {
      SetEntry(addr, denom, BalanceOf(addr, denom) - order.amount);
      AppendOrder(order);
    }

    method SetPrice(pair: Bytes, price: Uint64)
      requires Valid()
      modifies prices
      ensures Valid() && Repr == old(Repr)
      ensures View() == old(View()).(prices := old(View()).prices[pair := price])
    {
      prices.m := prices.m[pair := price];
      assert BalancesView() == old(BalancesView());
    }

    // ----- Transaction handlers -----

    method ExecuteDeposit(index: Uint32, tx: Bytes) returns (outcome: TxOutcome, events: seq<Event>)
      requires Valid()
      modifies Repr
      ensures Valid() && fresh(Repr - old(Repr))
      ensures Effect(View(), outcome, events) == Deposit(old(View()), index, tx)
    {
      hide Hex, Balance, SetBalance, PutUint64;
      events := [];
      if |tx| < 30 {
        return TxOutcome(index, 1, TooShort, [], []), [];
      }
      var addr, amount, denom := Hex(Owner(tx)), Amount(tx), tx[29..];
      if amount == 0 {
        return TxOutcome(index, 1, ZeroValue, [], []), [];
      }
      var bal := Credit(addr, denom, amount);
      outcome := TxOutcome(index, 0, Fine, PutUint64(bal), [Deposited(addr, denom, amount)]);
    }

    method ExecuteWithdraw(index: Uint32, tx: Bytes) returns (outcome: TxOutcome, events: seq<Event>)
      requires Valid()
      modifies Repr
      ensures Valid() && fresh(Repr - old(Repr))
      ensures Effect(View(), outcome, events) == Withdraw(old(View()), index, tx)
    {
      hide Hex, SetBalance, DropBalance, PutUint64;
      events := [];
      if |tx| < 30 {
        return TxOutcome(index, 1, TooShort, [], []), [];
      }
      var addr, amount, denom := Hex(Owner(tx)), Amount(tx), tx[29..];
      if amount == 0 {
        return TxOutcome(index, 1, ZeroValue, [], []), [];
      }
      var bal := BalanceOf(addr, denom);
      if bal < amount {
        return TxOutcome(index, 2, Insufficient(bal, amount), [], []), [];
      }
      bal := Debit(addr, denom, amount);
      outcome := TxOutcome(index, 0, Fine, PutUint64(bal), [Withdrew(addr, denom, amount)]);
    }

    method ExecuteLimitOrder(index: Uint32, tx: Bytes) returns (outcome: TxOutcome, events: seq<Event>)
      requires Valid()
      modifies Repr
      ensures Valid() && fresh(Repr - old(Repr))
      ensures Effect(View(), outcome, events) == LimitOrder(old(View()), index, tx)
    {
      hide Hex, SetBalance, PutUint64, PairBase;
      events := [];
      if |tx| < 38 {
        return TxOutcome(index, 1, TooShort, [], []), [];
      }
      var addr, amount, price, pair := Hex(Owner(tx)), Amount(tx), Price(tx), tx[37..];
      if amount == 0 || price == 0 {
        return TxOutcome(index, 1, ZeroValue, [], []), [];
      }
      var base := PairBase(pair);
      var bal := BalanceOf(addr, base);
      if bal < amount {
        return TxOutcome(index, 2, Insufficient(bal, amount), [], []), [];
      }
      Lock(addr, base, Order(Owner(tx), pair, amount, price));
      outcome := TxOutcome(index, 0, Fine, PutUint64(Wrap64(orderLen - 1)), [Ordered(addr, pair, amount, price)]);
    }

    method ExecuteOracleUpdate(c: Codecs, index: Uint32, tx: Bytes) returns (outcome: TxOutcome, events: seq<Event>)
      requires Valid()
      modifies Repr
      ensures Valid() && fresh(Repr - old(Repr))
      ensures Effect(View(), outcome, events) == OracleUpdate(c, old(View()), index, tx)
    {
      events := [];
      if |tx| < 2 {
        return TxOutcome(index, 1, TooShort, [], []), [];
      }
      var parsed := c.decodePrices(tx[1..]);
      if parsed.None? {
        return TxOutcome(index, 1, BadJson, [], []), [];
      }
      var ps := parsed.value;
      ghost var before := View();
      for i := 0 to |ps|
        invariant Valid() && Repr == old(Repr)
        invariant View() == before.(prices := ApplyPrices(before.prices, ps[..i]))
        invariant events == PriceEvents(ps[..i])
      {
        assert ps[..i + 1][..i] == ps[..i];
        if ps[i].pair == [] || ps[i].price == 0 {
          continue;
        }
        SetPrice(ps[i].pair, ps[i].price);
        events := events + [Priced(ps[i].pair, ps[i].price)];
      }
      assert ps[..|ps|] == ps;
      outcome := TxOutcome(index, 0, Fine, [], events);
    }

    method ExecuteTx(c: Codecs, index: Uint32, tx: Bytes) returns (outcome: TxOutcome, events: seq<Event>)
      requires Valid()
      modifies Repr
      ensures Valid() && fresh(Repr - old(Repr))
      ensures Effect(View(), outcome, events) == ExecTx(c, old(View()), index, tx)
    {
      if tx == [] {
        return TxOutcome(index, 1, EmptyTx, [], []), [];
      }
      if tx[0] == TX_DEPOSIT {
        outcome, events := ExecuteDeposit(index, tx);
      } else if tx[0] == TX_WITHDRAW {
        outcome, events := ExecuteWithdraw(index, tx);
      } else if tx[0] == TX_LIMIT_ORDER {
        outcome, events := ExecuteLimitOrder(index, tx);
      } else if tx[0] == TX_ORACLE_UPDATE {
        outcome, events := ExecuteOracleUpdate(c, index, tx);
      } else {
        return TxOutcome(index, 1, UnknownType(tx[0]), [], []), [];
      }
    }
  }
}
