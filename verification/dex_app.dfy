/** The DEX application object: a committed ledger, a staged one, and the calls of the engine. */
module DexApp {
  import opened Encoding
  import opened DexState
  import opened DexLedger
  import opened DexOracle
  import opened DexProposal
  import opened DexSnapshot
  import opened DexProtocol
  import Protocol

  datatype Handshaken = Handshaken(lastBlock: Option<Uint64>, appHash: Digest, caps: set<Protocol.Capability>)

  datatype QueryReply =
    | Found(key: Bytes, value: Bytes, height: Uint64)
    | NotFound(height: Uint64)

  /** Query as a function of the committed state. */
  function Answer(c: Codecs, s: State, path: string, data: Bytes): QueryReply {
    if path == "/balance" then
      if |data| < 21 then NotFound(0)
      else Found(data, PutUint64(Balance(s, Hex(data[..20]), data[20..])), s.height)
    else if path == "/price" then
      if data in s.prices then Found(data, PutUint64(s.prices[data]), s.height) else NotFound(s.height)
    else if path == "/orders" then Found([], c.encodeOrders(s.ordersNil, s.orders), s.height)
    else NotFound(s.height)
  }

  /** A balance query reads back the amount that the handlers keep. */
  lemma BalanceQueryExact(c: Codecs, s: State, owner: Address, denom: Bytes)
    requires denom != []
    ensures var r := Answer(c, s, "/balance", owner + denom);
            r.Found? && GetUint64(r.value) == Balance(s, Hex(owner), denom)
  {
    var v := Balance(s, Hex(owner), denom);
    assert (owner + denom)[..20] == owner && (owner + denom)[20..] == denom;
    GetPutUint64(v, []);
    assert PutUint64(v) + [] == PutUint64(v);
  }

  /** A price query finds exactly the pairs of the price table, with their prices. */
  lemma PriceQueryExact(c: Codecs, s: State, pair: Bytes)
    ensures var r := Answer(c, s, "/price", pair);
            && (r.Found? <==> pair in s.prices)
            && (r.Found? ==> r.key == pair && GetUint64(r.value) == s.prices[pair])
  {
    if pair in s.prices {
      GetPutUint64(s.prices[pair], []);
      assert PutUint64(s.prices[pair]) + [] == PutUint64(s.prices[pair]);
    }
  }

  /** The order book is answered as a whole. */
  lemma OrdersQueryExact(c: Codecs, s: State, data: Bytes)
    ensures Answer(c, s, "/orders", data) == Found([], c.encodeOrders(s.ordersNil, s.orders), s.height)
  {
  }

  /** Unknown paths are not found; every reply carries the committed height, except that to a
      balance query without a denom. */
  lemma QueryHeights(c: Codecs, s: State, path: string, data: Bytes)
    ensures path != "/balance" && path != "/price" && path != "/orders" ==> Answer(c, s, path, data).NotFound?
    ensures path == "/balance" ==> (Answer(c, s, path, data).Found? <==> |data| >= 21)
    ensures Answer(c, s, path, data).height == if path == "/balance" && |data| < 21 then 0 else s.height
  {
  }

  class App {
    const codecs: Codecs
    var current: Ledger
    var staged: Ledger?
    ghost var Repr: set<object>

    ghost predicate Valid()
      reads this, Repr
      ensures Valid() ==> this in Repr
    {
      && this in Repr
      && current in Repr && current.Repr <= Repr && this !in current.Repr && current.Valid()
      && (staged != null ==>
          staged in Repr && staged.Repr <= Repr && this !in staged.Repr && staged.Repr !! current.Repr
              && staged.Valid())
    }

    /** The committed state. */
    function Live(): State
      requires Valid()
      reads this, Repr
    {
      current.View()
    }

    /** The state between ExecuteBlock and Commit. */
    function Staging(): Option<State>
      requires Valid()
      reads this, Repr
    {
      if staged == null then None else Some(staged.View())
    }

    constructor (c: Codecs)
      ensures Valid() && fresh(Repr) && codecs == c
      ensures Live() == GENESIS && Staging() == None
    {
      codecs := c;
      var l := new Ledger();
      current, staged := l, null;
      Repr := {this} + l.Repr;
    }

    method Handshake(lastCommitted: bool) returns (r: Handshaken)
      requires Valid()
      ensures r.lastBlock == if lastCommitted then Some(Live().height) else None
      ensures r.appHash == AppHash(codecs, Live())
      ensures r.caps == Dex(codecs).implements ==
                {Protocol.ProposalControl, Protocol.VoteExtensions, Protocol.StateSync, Protocol.Simulation}
    {
      var h := AppHash(codecs, current.View());
      r := Handshaken(if lastCommitted then Some(current.height) else None, h, DEX_CAPABILITIES);
    }

    /** Runs the block on a clone. The committed ledger is not in the modifies clause: nothing
        reachable from it changes. */
    method ExecuteBlock(b: Block) returns (o: BlockOutcome)
      requires Valid()
      modifies `staged, `Repr
      ensures Valid() && fresh(Repr - old(Repr)) && current == old(current)
      ensures Live() == old(Live())
      ensures Staging() == Some(ExecBlock(codecs, old(Live()), b).state)
      ensures o == ExecBlock(codecs, old(Live()), b).outcome
      ensures Dex(codecs).execute(old(Live()), b) == Some(Protocol.Staged(Staging(), o))
    {
      hide Ledger.View, ExecTxs;
      var s, outcomes, blockEvents := Stage(b);
      var h := AppHash(codecs, s.View());
      staged := s;
      Repr := {this} + current.Repr + s.Repr;
      o := BlockOutcome(outcomes, blockEvents, h);
    }

    /** Executes the transactions of a block on a clone of the committed ledger. */
    method Stage(b: Block) returns (s: Ledger, outcomes: seq<TxOutcome>, blockEvents: seq<Event>)
      requires Valid()
      ensures s.Valid() && fresh(s.Repr)
      ensures TxsEffect(s.View(), outcomes, blockEvents) == ExecTxs(codecs, Opened(Live(), b.height), b.txs)
    {
      hide Ledger.View, ExecTxs;
      s := current.Clone();
      s.SetHeight(b.height);
      assert s.View() == Opened(Live(), b.height);
      outcomes, blockEvents := RunTxs(s, b.txs);
    }

    method RunTxs(s: Ledger, txs: seq<Bytes>) returns (outcomes: seq<TxOutcome>, blockEvents: seq<Event>)
      requires s.Valid()
      modifies s.Repr
      ensures s.Valid() && fresh(s.Repr - old(s.Repr))
      ensures TxsEffect(s.View(), outcomes, blockEvents) == ExecTxs(codecs, old(s.View()), txs)
    {
      outcomes, blockEvents := [], [];
      ghost var s0 := s.View();
      for i := 0 to |txs|
        invariant s.Valid() && fresh(s.Repr - old(s.Repr))
        invariant TxsEffect(s.View(), outcomes, blockEvents) == ExecTxs(codecs, s0, txs[..i])
      {
        assert txs[..i + 1][..i] == txs[..i];
        var outcome, events := s.ExecuteTx(codecs, Wrap32(i), txs[i]);
        outcomes := outcomes + [outcome];
        blockEvents := blockEvents + events;
      }
      assert txs[..|txs|] == txs;
    }

    /** Installs the staged ledger. Without one the program would crash. */
    method Commit() returns (retain: Uint64)
      requires Valid() && staged != null
      modifies `current, `staged
      ensures Valid() && Repr == old(Repr)
      ensures Live() == old(Staging()).value && Staging() == None
      ensures Dex(codecs).commit(old(Live()), old(Staging())) == Protocol.Committed(Live(), Staging())
      ensures retain == if Live().height > 100 then Live().height - 100 else 0
    {
      current := staged;
      staged := null;
      retain := 0;
      if current.height > 100 {
        retain := current.height - 100;
      }
    }

    method Query(path: string, data: Bytes) returns (r: QueryReply)
      requires Valid()
      ensures r == Answer(codecs, Live(), path, data)
    {
      if path == "/balance" {
        if |data| < 21 {
          return NotFound(0);
        }
        return Found(data, PutUint64(current.BalanceOf(Hex(data[..20]), data[20..])), current.height);
      }
      if path == "/price" {
        if data !in current.prices.m {
          return NotFound(current.height);
        }
        return Found(data, PutUint64(current.prices.m[data]), current.height);
      }
      if path == "/orders" {
        return Found([], codecs.encodeOrders(current.View().ordersNil, current.View().orders), current.height);
      }
      r := NotFound(current.height);
    }

    /** Dry-runs a transaction on a clone; no existing object is modified. */
    method Simulate(tx: Bytes) returns (outcome: TxOutcome)
      requires Valid()
      ensures outcome == ExecTx(codecs, Live().(ordersNil := false), 0, tx).outcome
    {
      var s := current.Clone();
      var events;
      outcome, events := s.ExecuteTx(codecs, 0, tx);
    }

    method ExtendVote() returns (ext: Bytes)
      requires Valid()
      ensures ext == Extension(codecs, Live().prices)
    {
      var prices := ListTable(current.prices.m);
      ext := codecs.encodePrices(prices);
    }

    method AvailableSnapshots() returns (ds: seq<Descriptor>)
      requires Valid()
      ensures ds == if Live().height == 0 then []
                    else var data := codecs.encodeState(Live());
                         [Descriptor(Live().height, FORMAT, ChunkCount(data), codecs.sha256(data))]
    {
      if current.height == 0 {
        return [];
      }
      var data := codecs.encodeState(current.View());
      ds := [Descriptor(current.height, FORMAT, ChunkCount(data), codecs.sha256(data))];
    }

    method ExportSnapshot(height: Uint64, format: Uint32) returns (r: Option<(seq<Chunk>, Descriptor)>)
      requires Valid()
      ensures r.Some? <==> format == FORMAT && height == Live().height
      ensures r.Some? ==>
                var data := codecs.encodeState(Live());
                r.value == (Exported(data, ChunkCount(data)),
                            Descriptor(height, FORMAT, ChunkCount(data), codecs.sha256(data)))
    {
      if format != FORMAT || current.height != height {
        return None;
      }
      var data := codecs.encodeState(current.View());
      var chunks := ExportChunks(data);
      r := Some((chunks, Descriptor(height, FORMAT, ChunkCount(data), codecs.sha256(data))));
    }

    /** Replaces the committed ledger on success and leaves the staged one alone. */
    method ImportSnapshot(d: Descriptor, delivered: seq<Chunk>) returns (result: ImportResult)
      requires Valid() && StateCodec(codecs)
      modifies `current, `Repr
      ensures Valid() && fresh(Repr - old(Repr))
      ensures Imported(Live(), result) == Import(codecs, old(Live()), d, delivered)
      ensures Staging() == old(Staging())
      ensures if result.ImportOk? then fresh(current) else current == old(current)
    {
      var s;
      s, result := DecideImport(codecs, d, delivered);
      hide Import, StateCodec, Ledger.View;
      ghost var before := Live();
      assert Import(codecs, before, d, delivered) == Imported(if s.Some? then s.value else before, result);
      if s.Some? {
        assert s.value.ordersNil ==> s.value.orders == [];
        var l := Ledger.Restore(s.value);
        current := l;
        Repr := Repr + l.Repr;
      }
    }
  }
}
