/** The DEX application as a pure function: its state, its four transactions and the
    execution of a block (example/dex/app.go). */
module DexState {
  import opened Encoding

  const TX_DEPOSIT: Byte := 1
  const TX_WITHDRAW: Byte := 2
  const TX_LIMIT_ORDER: Byte := 3
  const TX_ORACLE_UPDATE: Byte := 4

  type Address = b: Bytes | |b| == 20 witness seq(20, _ => 0)
  type Digest = b: Bytes | |b| == 32 witness seq(32, _ => 0)

  datatype OraclePrice = OraclePrice(pair: Bytes, price: Uint64)
  datatype Order = Order(owner: Address, pair: Bytes, amount: Uint64, price: Uint64)

  /** The logical state. A nil order slice and an empty one differ in their JSON form,
      so ordersNil keeps them apart. */
  datatype State = State(
    height: Uint64,
    balances: map<Bytes, map<Bytes, Uint64>>,
    orders: seq<Order>,
    ordersNil: bool,
    prices: map<Bytes, Uint64>)

  const GENESIS := State(0, map[], [], true, map[])

  datatype Info =
    | Fine
    | EmptyTx
    | UnknownType(prefix: Byte)
    | TooShort
    | ZeroValue
    | Insufficient(have: Uint64, need: Uint64)
    | BadJson

  datatype Event =
    | Deposited(address: Bytes, denom: Bytes, amount: Uint64)
    | Withdrew(address: Bytes, denom: Bytes, amount: Uint64)
    | Ordered(address: Bytes, pair: Bytes, amount: Uint64, price: Uint64)
    | Priced(pair: Bytes, price: Uint64)

  datatype TxOutcome = TxOutcome(index: Uint32, code: Uint32, info: Info, data: Bytes, events: seq<Event>)
  datatype Block = Block(height: Uint64, txs: seq<Bytes>)
  datatype BlockOutcome = BlockOutcome(txOutcomes: seq<TxOutcome>, blockEvents: seq<Event>, appHash: Digest)

  // ----- Hashing and JSON, as functions of the environment -----

  datatype Codecs = Codecs(
    sha256: Bytes -> Digest,
    encodeState: State -> Bytes,
    decodeState: Bytes -> Option<State>,
    encodePrices: seq<OraclePrice> -> Bytes,
    decodePrices: Bytes -> Option<seq<OraclePrice>>,
    encodeOrders: (bool, seq<Order>) -> Bytes)

  /** JSON carries valid UTF-8 strings faithfully and no others. */
  predicate PortablePrices(ps: seq<OraclePrice>) {
    forall i | 0 <= i < |ps| :: ValidUtf8(ps[i].pair)
  }

  predicate Portable(s: State) {
    && (forall a | a in s.balances :: ValidUtf8(a) && forall d | d in s.balances[a] :: ValidUtf8(d))
    && (forall i | 0 <= i < |s.orders| :: ValidUtf8(s.orders[i].pair))
    && (forall p | p in s.prices :: ValidUtf8(p))
    && (s.ordersNil ==> s.orders == [])
  }

  /** What encoding/json does on states: decoding undoes encoding for portable states, and
      whatever decodes is portable, since invalid bytes are replaced. */
  ghost predicate StateCodec(c: Codecs) {
    && (forall s | Portable(s) :: c.decodeState(c.encodeState(s)) == Some(s))
    && (forall b | c.decodeState(b).Some? :: Portable(c.decodeState(b).value))
  }

  /** The same for price lists; the empty input is not JSON. */
  ghost predicate PriceCodec(c: Codecs) {
    && (forall ps | PortablePrices(ps) :: c.decodePrices(c.encodePrices(ps)) == Some(ps))
    && (forall b | c.decodePrices(b).Some? :: PortablePrices(c.decodePrices(b).value))
    && c.decodePrices([]) == None
  }

  function AppHash(c: Codecs, s: State): Digest { c.sha256(c.encodeState(s)) }

  // ----- Transaction fields -----

  function Owner(tx: Bytes): Address
    requires |tx| >= 21
  {
    tx[1..21]
  }

  function Amount(tx: Bytes): Uint64
    requires |tx| >= 29
  {
    GetUint64(tx[21..])
  }

  function Price(tx: Bytes): Uint64
    requires |tx| >= 37
  {
    GetUint64(tx[29..])
  }

  /** The part of a trading pair before the first '/', or all of it. */
  function PairBase(pair: Bytes): (base: Bytes)
    ensures |base| <= |pair| && base == pair[..|base|] && 47 !in base
    ensures |base| < |pair| ==> pair[|base|] == 47
  {
    if pair == [] || pair[0] == 47 then []
    else
      var rest := PairBase(pair[1..]);
      [pair[0]] + rest
  }

  // ----- Balances -----

  /** The balance of an address in a denom, zero when either is missing. */
  function Balance(s: State, addr: Bytes, denom: Bytes): Uint64 {
    if addr in s.balances && denom in s.balances[addr] then s.balances[addr][denom] else 0
  }

  function Denoms(s: State, addr: Bytes): map<Bytes, Uint64> {
    if addr in s.balances then s.balances[addr] else map[]
  }

  function SetBalance(s: State, addr: Bytes, denom: Bytes, v: Uint64): State {
    s.(balances := s.balances[addr := Denoms(s, addr)[denom := v]])
  }

  /** Removes a denom, and the address with it when it was the last one. */
  function DropBalance(s: State, addr: Bytes, denom: Bytes): State {
    var rest := Denoms(s, addr) - {denom};
    if rest == map[] then s.(balances := s.balances - {addr})
    else s.(balances := s.balances[addr := rest])
  }

  // ----- Transactions -----

  datatype Effect = Effect(state: State, outcome: TxOutcome, events: seq<Event>)

  function Fail(s: State, index: Uint32, code: Uint32, info: Info): Effect {
    Effect(s, TxOutcome(index, code, info, [], []), [])
  }

  function Deposit(s: State, index: Uint32, tx: Bytes): Effect {
    if |tx| < 30 then Fail(s, index, 1, TooShort)
    else
      var addr, amount, denom := Hex(Owner(tx)), Amount(tx), tx[29..];
      if amount == 0 then Fail(s, index, 1, ZeroValue)
      else
        var bal := Wrap64(Balance(s, addr, denom) + amount);
        Effect(SetBalance(s, addr, denom, bal),
               TxOutcome(index, 0, Fine, PutUint64(bal), [Deposited(addr, denom, amount)]), [])
  }

  function Withdraw(s: State, index: Uint32, tx: Bytes): Effect {
    if |tx| < 30 then Fail(s, index, 1, TooShort)
    else
      var addr, amount, denom := Hex(Owner(tx)), Amount(tx), tx[29..];
      var bal := Balance(s, addr, denom);
      if amount == 0 then Fail(s, index, 1, ZeroValue)
      else if bal < amount then Fail(s, index, 2, Insufficient(bal, amount))
      else
        Effect(if bal == amount then DropBalance(s, addr, denom) else SetBalance(s, addr, denom, bal - amount),
               TxOutcome(index, 0, Fine, PutUint64(bal - amount), [Withdrew(addr, denom, amount)]), [])
  }

  function LimitOrder(s: State, index: Uint32, tx: Bytes): Effect {
    if |tx| < 38 then Fail(s, index, 1, TooShort)
    else
      var addr, amount, price, pair := Hex(Owner(tx)), Amount(tx), Price(tx), tx[37..];
      var base := PairBase(pair);
      var bal := Balance(s, addr, base);
      if amount == 0 || price == 0 then Fail(s, index, 1, ZeroValue)
      else if bal < amount then Fail(s, index, 2, Insufficient(bal, amount))
      else
        var order := Order(Owner(tx), pair, amount, price);
        Effect(SetBalance(s, addr, base, bal - amount).(orders := s.orders + [order], ordersNil := false),
               TxOutcome(index, 0, Fine, PutUint64(Wrap64(|s.orders|)), [Ordered(addr, pair, amount, price)]), [])
  }

  predicate UsablePrice(p: OraclePrice) { p.pair != [] && p.price != 0 }

  function ApplyPrices(prices: map<Bytes, Uint64>, ps: seq<OraclePrice>): map<Bytes, Uint64> {
    if ps == [] then prices
    else
      var prior, last := ApplyPrices(prices, ps[..|ps| - 1]), ps[|ps| - 1];
      if UsablePrice(last) then prior[last.pair := last.price] else prior
  }

  function PriceEvents(ps: seq<OraclePrice>): seq<Event> {
    if ps == [] then []
    else
      var last := ps[|ps| - 1];
      PriceEvents(ps[..|ps| - 1]) + if UsablePrice(last) then [Priced(last.pair, last.price)] else []
  }

  function OracleUpdate(c: Codecs, s: State, index: Uint32, tx: Bytes): Effect {
    if |tx| < 2 then Fail(s, index, 1, TooShort)
    else
      match c.decodePrices(tx[1..])
      case None => Fail(s, index, 1, BadJson)
      case Some(ps) =>
        Effect(s.(prices := ApplyPrices(s.prices, ps)),
               TxOutcome(index, 0, Fine, [], PriceEvents(ps)), PriceEvents(ps))
  }

  function ExecTx(c: Codecs, s: State, index: Uint32, tx: Bytes): Effect {
    if tx == [] then Fail(s, index, 1, EmptyTx)
    else if tx[0] == TX_DEPOSIT then Deposit(s, index, tx)
    else if tx[0] == TX_WITHDRAW then Withdraw(s, index, tx)
    else if tx[0] == TX_LIMIT_ORDER then LimitOrder(s, index, tx)
    else if tx[0] == TX_ORACLE_UPDATE then OracleUpdate(c, s, index, tx)
    else Fail(s, index, 1, UnknownType(tx[0]))
  }

  // ----- Blocks and runs -----

  datatype TxsEffect = TxsEffect(state: State, outcomes: seq<TxOutcome>, events: seq<Event>)

  function ExecTxs(c: Codecs, s: State, txs: seq<Bytes>): (r: TxsEffect)
    ensures |r.outcomes| == |txs|
  {
    if txs == [] then TxsEffect(s, [], [])
    else
      var n := |txs| - 1;
      var prior := ExecTxs(c, s, txs[..n]);
      var e := ExecTx(c, prior.state, Wrap32(n), txs[n]);
      TxsEffect(e.state, prior.outcomes + [e.outcome], prior.events + e.events)
  }

  /** The state a block starts from: a clone at the block's height. Cloning turns a nil
      order slice into an empty one. */
  function Opened(s: State, height: Uint64): State { s.(height := height, ordersNil := false) }

  datatype BlockEffect = BlockEffect(state: State, outcome: BlockOutcome)

  function ExecBlock(c: Codecs, s: State, b: Block): BlockEffect {
    var r := ExecTxs(c, Opened(s, b.height), b.txs);
    BlockEffect(r.state, BlockOutcome(r.outcomes, r.events, AppHash(c, r.state)))
  }

  /** The fold of committed blocks. */
  function RunBlocks(c: Codecs, s: State, blocks: seq<Block>): State {
    if blocks == [] then s
    else ExecBlock(c, RunBlocks(c, s, blocks[..|blocks| - 1]), blocks[|blocks| - 1]).state
  }

  /** The outcomes a node reports while it runs the blocks. */
  function RunOutcomes(c: Codecs, s: State, blocks: seq<Block>): seq<BlockOutcome> {
    if blocks == [] then []
    else
      var n := |blocks| - 1;
      RunOutcomes(c, s, blocks[..n]) + [ExecBlock(c, RunBlocks(c, s, blocks[..n]), blocks[n]).outcome]
  }
}
