/** Vote extensions and the aggregation of their price feeds into an oracle transaction. */
module DexOracle {
  import opened Encoding
  import opened Sorting
  import opened DexState

  const BY_PAIR := (p: OraclePrice, q: OraclePrice) => AtMost(p.pair, q.pair)
  const BY_VALUE := (a: Uint64, b: Uint64) => a <= b

  lemma Orders()
    ensures TotalPreorder(BY_PAIR) && TotalPreorder(BY_VALUE)
  {
    forall p, q ensures BY_PAIR(p, q) || BY_PAIR(q, p) {
      AtMostTotal(p.pair, q.pair);
    }
    forall p, q, r | BY_PAIR(p, q) && BY_PAIR(q, r) ensures BY_PAIR(p, r) {
      AtMostTransitive(p.pair, q.pair, r.pair);
    }
  }

  // ----- Price tables as sorted lists -----

  ghost function Entries(m: map<Bytes, Uint64>): set<OraclePrice> {
    set p | p in m :: OraclePrice(p, m[p])
  }

  lemma EntryOf(m: map<Bytes, Uint64>, e: OraclePrice)
    ensures e in Entries(m) <==> e.pair in m && m[e.pair] == e.price
  {
    assert e == OraclePrice(e.pair, e.price);
  }

  lemma EntriesAppend(m: map<Bytes, Uint64>, p: Bytes, v: Uint64)
    requires p !in m
    ensures Entries(m[p := v]) == Entries(m) + {OraclePrice(p, v)} && OraclePrice(p, v) !in Entries(m)
  {
    EntryOf(m, OraclePrice(p, v));
    forall e ensures e in Entries(m[p := v]) <==> e in Entries(m) + {OraclePrice(p, v)} {
      EntryOf(m, e);
      EntryOf(m[p := v], e);
    }
  }

  ghost function Listed<T(!new)>(s: set<T>): seq<T> {
    if s == {} then []
    else
      var x :| x in s;
      [x] + Listed(s - {x})
  }

  lemma {:induction false} ListedOnce<T(!new)>(s: set<T>)
    ensures multiset(Listed(s)) == multiset(s)
  {
    if s != {} {
      var x := Listed(s)[0];
      ListedOnce(s - {x});
      ConsMultiset(x, Listed(s - {x}));
    }
  }

  /** The entries of a price table in increasing pair order. */
  ghost function Listing(m: map<Bytes, Uint64>): seq<OraclePrice> {
    Sort(BY_PAIR, Listed(Entries(m)))
  }

  lemma ListingSorts(m: map<Bytes, Uint64>)
    ensures Lists(Listing(m), m) && SortedBy(BY_PAIR, Listing(m))
  {
    Orders();
    ListedOnce(Entries(m));
    SortSorts(BY_PAIR, Listed(Entries(m)));
  }

  lemma ListingUnique(m: map<Bytes, Uint64>, ps: seq<OraclePrice>)
    requires Lists(ps, m) && SortedBy(BY_PAIR, ps)
    ensures ps == Listing(m)
  {
    forall i, j | 0 <= i < |ps| && 0 <= j < |ps| && BY_PAIR(ps[i], ps[j]) && BY_PAIR(ps[j], ps[i])
      ensures ps[i] == ps[j]
    {
      AtMostTotal(ps[i].pair, ps[j].pair);
      assert ps[i] in multiset(ps) && ps[j] in multiset(ps);
    }
    ListingSorts(m);
    SortedUnique(BY_PAIR, ps, Listing(m));
  }

  /** A listing holds each entry of the table once, in strictly increasing pair order. */
  lemma ListingIsStrict(m: map<Bytes, Uint64>)
    ensures var ps := Listing(m);
            && |ps| == |m|
            && (forall i | 0 <= i < |ps| :: ps[i].pair in m && m[ps[i].pair] == ps[i].price)
            && (forall i, j | 0 <= i < j < |ps| :: Below(ps[i].pair, ps[j].pair))
            && (forall p | p in m :: OraclePrice(p, m[p]) in ps)
  {
    hide Listing, Entries;
    var ps := Listing(m);
    ListingSorts(m);
    forall i | 0 <= i < |ps| ensures ps[i].pair in m && m[ps[i].pair] == ps[i].price {
      assert ps[i] in multiset(ps);
      EntryOf(m, ps[i]);
    }
    forall p | p in m ensures OraclePrice(p, m[p]) in ps {
      EntryOf(m, OraclePrice(p, m[p]));
      assert OraclePrice(p, m[p]) in multiset(ps);
    }
    forall i, j | 0 <= i < j < |ps| ensures Below(ps[i].pair, ps[j].pair) {
      assert BY_PAIR(ps[i], ps[j]);
      if ps[i].pair == ps[j].pair {
        RepeatCounts(ps, i, j);
      }
    }
    EntriesSize(m);
    assert |multiset(ps)| == |ps|;
  }

  lemma RepeatCounts<T>(s: seq<T>, i: nat, j: nat)
    requires i < j < |s| && s[i] == s[j]
    ensures multiset(s)[s[i]] >= 2
  {
    assert s == s[..j] + s[j..];
    assert s[i] in s[..j] && s[i] in s[j..];
    assert multiset(s) == multiset(s[..j]) + multiset(s[j..]);
  }

  lemma {:induction false} EntriesSize(m: map<Bytes, Uint64>)
    ensures |Entries(m)| == |m|
    decreases |m|
  {
    if p :| p in m {
      EntriesSize(m - {p});
      EntriesAppend(m - {p}, p, m[p]);
      assert (m - {p})[p := m[p]] == m;
    } else {
      assert Entries(m) == {};
    }
  }

  /** ps holds exactly the entries of the table, in some order. */
  ghost predicate Lists(ps: seq<OraclePrice>, m: map<Bytes, Uint64>) {
    multiset(ps) == multiset(Entries(m))
  }

  lemma ListsAppend(ps: seq<OraclePrice>, m: map<Bytes, Uint64>, p: Bytes, v: Uint64)
    requires Lists(ps, m) && p !in m
    ensures Lists(ps + [OraclePrice(p, v)], m[p := v])
  {
    EntriesAppend(m, p, v);
  }

  /** The same for a walk through the table's keys: p leaves the keys still to do. */
  lemma ListsStep(ps: seq<OraclePrice>, m: map<Bytes, Uint64>, todo: set<Bytes>, p: Bytes)
    requires Lists(ps, m - todo) && p in todo && p in m
    ensures Lists(ps + [OraclePrice(p, m[p])], m - (todo - {p}))
  {
    ListsAppend(ps, m - todo, p, m[p]);
    assert (m - todo)[p := m[p]] == m - (todo - {p});
  }

  lemma ListsStart(m: map<Bytes, Uint64>)
    ensures Lists([], m - m.Keys)
  {
    assert m - m.Keys == map[];
    assert Entries(m - m.Keys) == {};
  }

  /** Collects a price table in any order and sorts it, as ExtendVote does. */
  method ListTable(m: map<Bytes, Uint64>) returns (ps: seq<OraclePrice>)
    ensures ps == Listing(m)
  {
    ps := [];
    var todo := m.Keys;
    ListsStart(m);
    while todo != {}
      invariant todo <= m.Keys
      invariant Lists(ps, m - todo)
      decreases todo
    {
      var p :| p in todo;
      ListsStep(ps, m, todo, p);
      ps := ps + [OraclePrice(p, m[p])];
      todo := todo - {p};
    }
    assert m - {} == m;
    Orders();
    ps := SortSlice(BY_PAIR, ps);
    ListingUnique(m, ps);
  }

  // ----- Extensions -----

  /** ExtendVote: the committed price table as JSON. */
  ghost function Extension(c: Codecs, prices: map<Bytes, Uint64>): Bytes {
    c.encodePrices(Listing(prices))
  }

  /** VerifyExtension: an empty extension, or a price list that names its pairs. */
  predicate AcceptsExtension(c: Codecs, ext: Bytes) {
    ext == [] ||
    (c.decodePrices(ext).Some? && forall p | p in c.decodePrices(ext).value :: p.pair != [])
  }

  // ----- Collection -----

  function Usable(ps: seq<OraclePrice>): (r: seq<OraclePrice>) {
    if ps == [] then []
    else
      var last := ps[|ps| - 1];
      Usable(ps[..|ps| - 1]) + if UsablePrice(last) then [last] else []
  }

  /** The usable entries of one extension; an empty or malformed one has none. */
  function Submitted(c: Codecs, ext: Bytes): seq<OraclePrice> {
    if ext == [] || c.decodePrices(ext).None? then [] else Usable(c.decodePrices(ext).value)
  }

  function Collected(c: Codecs, exts: seq<Bytes>): seq<OraclePrice> {
    if exts == [] then []
    else Collected(c, exts[..|exts| - 1]) + Submitted(c, exts[|exts| - 1])
  }

  function Pairs(es: seq<OraclePrice>): set<Bytes> { set e | e in es :: e.pair }

  /** The prices entered for a pair, in order of arrival. */
  function Feed(es: seq<OraclePrice>, pair: Bytes): seq<Uint64> {
    if es == [] then []
    else
      var last := es[|es| - 1];
      Feed(es[..|es| - 1], pair) + if last.pair == pair then [last.price] else []
  }

  /** A pair's feed holds each of its prices as often as it was entered. */
  lemma {:induction false} FeedCounts(es: seq<OraclePrice>, pair: Bytes, v: Uint64)
    ensures multiset(Feed(es, pair))[v] == multiset(es)[OraclePrice(pair, v)]
  {
    if es == [] {
    } else {
      hide Feed;
      var front, last := es[..|es| - 1], es[|es| - 1];
      assert es == front + [last];
      FeedCounts(front, pair, v);
      FeedAppend(front, last, pair);
      AppendCounts(front, last, OraclePrice(pair, v));
      if last.pair == pair {
        AppendCounts(Feed(front, pair), last.price, v);
      } else {
        assert Feed(front, pair) + [] == Feed(front, pair);
      }
    }
  }

  lemma FeedOfPair(es: seq<OraclePrice>, e: OraclePrice)
    ensures e in es <==> e.price in Feed(es, e.pair)
  {
    FeedCounts(es, e.pair, e.price);
    assert e == OraclePrice(e.pair, e.price);
    assert e in es <==> e in multiset(es);
    assert e.price in Feed(es, e.pair) <==> e.price in multiset(Feed(es, e.pair));
  }

  lemma FeedNonEmpty(es: seq<OraclePrice>, pair: Bytes)
    ensures Feed(es, pair) != [] <==> pair in Pairs(es)
  {
    if e :| e in es && e.pair == pair {
      FeedOfPair(es, e);
    } else if Feed(es, pair) != [] {
      FeedOfPair(es, OraclePrice(pair, Feed(es, pair)[0]));
    }
  }

  function Grouped(es: seq<OraclePrice>): (g: map<Bytes, seq<Uint64>>)
    ensures forall p | p in g :: g[p] != []
  {
    assert forall p | p in Pairs(es) :: Feed(es, p) != [] by {
      forall p | p in Pairs(es) ensures Feed(es, p) != [] {
        FeedNonEmpty(es, p);
      }
    }
    map p | p in Pairs(es) :: Feed(es, p)
  }

  lemma FeedAppend(es: seq<OraclePrice>, e: OraclePrice, pair: Bytes)
    ensures Feed(es + [e], pair) == Feed(es, pair) + if e.pair == pair then [e.price] else []
  {
    assert (es + [e])[..|es|] == es;
  }

  /** The price lists with one more price at the end of its pair's list. */
  function AddPrice(g: map<Bytes, seq<Uint64>>, e: OraclePrice): map<Bytes, seq<Uint64>> {
    g[e.pair := (if e.pair in g then g[e.pair] else []) + [e.price]]
  }

  lemma PairsAppend(es: seq<OraclePrice>, e: OraclePrice)
    ensures Pairs(es + [e]) == Pairs(es) + {e.pair}
  {
    assert forall x :: x in es + [e] <==> x in es || x == e;
  }

  lemma GroupedAppend(es: seq<OraclePrice>, e: OraclePrice)
    ensures Grouped(es + [e]) == AddPrice(Grouped(es), e)
  {
    PairsAppend(es, e);
    FeedNonEmpty(es, e.pair);
    forall p | p in Pairs(es + [e]) ensures Grouped(es + [e])[p] == AddPrice(Grouped(es), e)[p] {
      FeedAppend(es, e, p);
    }
  }

  /** The upper middle one of the sorted prices. */
  function Median(vals: seq<Uint64>): Uint64
    requires vals != []
  {
    Sort(BY_VALUE, vals)[|vals| / 2]
  }

  function Medians(g: map<Bytes, seq<Uint64>>): map<Bytes, Uint64>
    requires forall p | p in g :: g[p] != []
  {
    map p | p in g :: Median(g[p])
  }

  /** The aggregate: the median of every pair that has a usable price. */
  function Table(c: Codecs, exts: seq<Bytes>): map<Bytes, Uint64> {
    Medians(Grouped(Collected(c, exts)))
  }

  ghost function OracleTx(c: Codecs, exts: seq<Bytes>): Option<Bytes> {
    if Table(c, exts) == map[] then None
    else Some([TX_ORACLE_UPDATE] + c.encodePrices(Listing(Table(c, exts))))
  }

  method AddPrices(pairPrices: map<Bytes, seq<Uint64>>, ps: seq<OraclePrice>, ghost es: seq<OraclePrice>)
    returns (r: map<Bytes, seq<Uint64>>)
    requires pairPrices == Grouped(es)
    ensures r == Grouped(es + Usable(ps))
  {
    hide Grouped;
    r := pairPrices;
    assert es + Usable(ps[..0]) == es;
    for j := 0 to |ps|
      invariant r == Grouped(es + Usable(ps[..j]))
    {
      assert ps[..j + 1][..j] == ps[..j];
      if ps[j].pair != [] && ps[j].price > 0 {
        GroupedAppend(es + Usable(ps[..j]), ps[j]);
        assert es + Usable(ps[..j + 1]) == es + Usable(ps[..j]) + [ps[j]];
        r := AddPrice(r, ps[j]);
      } else {
        assert Usable(ps[..j + 1]) == Usable(ps[..j]);
      }
    }
    assert ps[..|ps|] == ps;
  }

  lemma NothingCollected(c: Codecs, exts: seq<Bytes>)
    requires exts == []
    ensures Grouped(Collected(c, exts)) == map[]
  {
  }

  lemma CollectedNext(c: Codecs, exts: seq<Bytes>, i: nat)
    requires i < |exts|
    ensures Collected(c, exts[..i + 1]) == Collected(c, exts[..i]) + Submitted(c, exts[i])
  {
    assert exts[..i + 1][..i] == exts[..i];
  }

  method CollectPrices(c: Codecs, exts: seq<Bytes>) returns (pairPrices: map<Bytes, seq<Uint64>>)
    ensures pairPrices == Grouped(Collected(c, exts))
  {
    hide Grouped, Usable, Collected;
    pairPrices := map[];
    NothingCollected(c, exts[..0]);
    for i := 0 to |exts|
      invariant pairPrices == Grouped(Collected(c, exts[..i]))
    {
      ghost var es := Collected(c, exts[..i]);
      CollectedNext(c, exts, i);
      assert es + [] == es;
      if exts[i] == [] {
        continue;
      }
      var parsed := c.decodePrices(exts[i]);
      if parsed.None? {
        continue;
      }
      pairPrices := AddPrices(pairPrices, parsed.value, es);
    }
    assert exts[..|exts|] == exts;
  }

  method MedianOf(vals: seq<Uint64>) returns (median: Uint64)
    requires vals != []
    ensures median == Median(vals)
  {
    Orders();
    var sorted := SortSlice(BY_VALUE, vals);
    MedianOfAnySort(vals, sorted);
    median := sorted[|sorted| / 2];
  }

  method AggregateMedians(pairPrices: map<Bytes, seq<Uint64>>, ghost table: map<Bytes, Uint64>)
    returns (aggregated: seq<OraclePrice>)
    requires table.Keys == pairPrices.Keys
    requires forall p | p in pairPrices :: pairPrices[p] != [] && table[p] == Median(pairPrices[p])
    ensures Lists(aggregated, table)
  {
    hide Median;
    aggregated := [];
    var todo := pairPrices.Keys;
    ListsStart(table);
    while todo != {}
      invariant todo <= pairPrices.Keys
      invariant Lists(aggregated, table - todo)
      decreases todo
    {
      var p :| p in todo;
      var median := MedianOf(pairPrices[p]);
      ListsStep(aggregated, table, todo, p);
      aggregated := aggregated + [OraclePrice(p, median)];
      todo := todo - {p};
    }
    assert table - {} == table;
  }

  /** Aggregates in whatever order the maps are iterated and however the sort breaks ties:
      the transaction is a function of the extensions. */
  method BuildOracleTx(c: Codecs, exts: seq<Bytes>) returns (tx: Option<Bytes>)
    ensures tx == OracleTx(c, exts)
  {
    var pairPrices := CollectPrices(c, exts);
    assert Table(c, exts).Keys == pairPrices.Keys;
    if |pairPrices| == 0 {
      assert Table(c, exts) == map[];
      return None;
    }
    assert |Table(c, exts).Keys| == |pairPrices|;
    var aggregated := AggregateMedians(pairPrices, Table(c, exts));
    Orders();
    aggregated := SortSlice(BY_PAIR, aggregated);
    ListingUnique(Table(c, exts), aggregated);
    tx := Some([TX_ORACLE_UPDATE] + c.encodePrices(aggregated));
  }

  lemma MedianOfAnySort(vals: seq<Uint64>, sorted: seq<Uint64>)
    requires vals != [] && IsSortOf(BY_VALUE, vals, sorted)
    ensures |sorted| == |vals| && sorted[|sorted| / 2] == Median(vals)
  {
    Orders();
    SortSorts(BY_VALUE, vals);
    SameElements(sorted, vals);
    SortedUnique(BY_VALUE, sorted, Sort(BY_VALUE, vals));
  }
}
