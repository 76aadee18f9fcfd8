/** What the oracle aggregation guarantees: independence of order, robustness of the median
    and the fixed point of an unchanged price table. */
module DexOracleLaws {
  import opened Encoding
  import opened Sorting
  import opened DexState
  import opened DexOracle

  // ----- Order independence -----

  lemma {:induction false} CollectedConcat(c: Codecs, a: seq<Bytes>, b: seq<Bytes>)
    ensures Collected(c, a + b) == Collected(c, a) + Collected(c, b)
  {
    hide Submitted;
    if b == [] {
      assert a + b == a;
    } else {
      var n := |b| - 1;
      calc {
        Collected(c, a + b);
        { assert (a + b)[..|a| + n] == a + b[..n]; }
        Collected(c, a + b[..n]) + Submitted(c, b[n]);
        { CollectedConcat(c, a, b[..n]); }
        Collected(c, a) + Collected(c, b[..n]) + Submitted(c, b[n]);
        Collected(c, a) + (Collected(c, b[..n]) + Submitted(c, b[n]));
        Collected(c, a) + Collected(c, b);
      }
    }
  }

  lemma {:induction false} CollectedPermutes(c: Codecs, a: seq<Bytes>, b: seq<Bytes>)
    requires multiset(a) == multiset(b)
    ensures multiset(Collected(c, a)) == multiset(Collected(c, b))
  {
    if a == [] {
      SameElements(a, b);
    } else {
      var k := FindHead(a, b);
      var x, y := b[..k], b[k + 1..];
      CollectedPermutes(c, a[1..], x + y);
      assert a == [a[0]] + a[1..];
      CollectedConcat(c, [a[0]], a[1..]);
      CollectedConcat(c, x, y);
      CollectedConcat(c, x, [a[0]] + y);
      CollectedConcat(c, [a[0]], y);
    }
  }

  lemma MedianPermutes(a: seq<Uint64>, b: seq<Uint64>)
    requires multiset(a) == multiset(b) && a != [] && b != []
    ensures Median(a) == Median(b)
  {
    Orders();
    SortSorts(BY_VALUE, a);
    SortSorts(BY_VALUE, b);
    SameElements(a, b);
    SortedUnique(BY_VALUE, Sort(BY_VALUE, a), Sort(BY_VALUE, b));
  }

  lemma FeedPermutes(a: seq<OraclePrice>, b: seq<OraclePrice>, pair: Bytes)
    requires multiset(a) == multiset(b)
    ensures multiset(Feed(a, pair)) == multiset(Feed(b, pair))
    ensures Feed(a, pair) == [] <==> Feed(b, pair) == []
    ensures pair in Pairs(a) <==> pair in Pairs(b)
  {
    forall v ensures multiset(Feed(a, pair))[v] == multiset(Feed(b, pair))[v] {
      FeedCounts(a, pair, v);
      FeedCounts(b, pair, v);
    }
    SameElements(Feed(a, pair), Feed(b, pair));
    FeedNonEmpty(a, pair);
    FeedNonEmpty(b, pair);
  }

  lemma GroupedPermutes(a: seq<OraclePrice>, b: seq<OraclePrice>)
    requires multiset(a) == multiset(b)
    ensures Medians(Grouped(a)) == Medians(Grouped(b))
  {
    forall p ensures p in Pairs(a) <==> p in Pairs(b) {
      FeedPermutes(a, b, p);
    }
    forall p | p in Pairs(a) ensures Medians(Grouped(a))[p] == Medians(Grouped(b))[p] {
      FeedPermutes(a, b, p);
      FeedNonEmpty(a, p);
      MedianPermutes(Feed(a, p), Feed(b, p));
    }
  }

  /** The oracle transaction does not depend on the order of the vote extensions. */
  lemma OracleTxOrderIndependent(c: Codecs, a: seq<Bytes>, b: seq<Bytes>)
    requires multiset(a) == multiset(b)
    ensures OracleTx(c, a) == OracleTx(c, b)
  {
    CollectedPermutes(c, a, b);
    GroupedPermutes(Collected(c, a), Collected(c, b));
  }

  // ----- What the aggregate contains -----

  lemma {:induction false} UsableExactly(ps: seq<OraclePrice>, e: OraclePrice)
    ensures e in Usable(ps) <==> e in ps && UsablePrice(e)
  {
    if ps == [] {
    } else {
      UsableExactly(ps[..|ps| - 1], e);
      assert ps == ps[..|ps| - 1] + [ps[|ps| - 1]];
    }
  }

  /** Some extension submits the entry, and the entry is usable. */
  ghost predicate Offered(c: Codecs, exts: seq<Bytes>, e: OraclePrice) {
    exists i | 0 <= i < |exts| :: e in Submitted(c, exts[i])
  }

  lemma {:induction false} CollectedExactly(c: Codecs, exts: seq<Bytes>, e: OraclePrice)
    ensures e in Collected(c, exts) <==> Offered(c, exts, e)
  {
    if exts == [] {
    } else {
      var n := |exts| - 1;
      CollectedExactly(c, exts[..n], e);
      assert forall i | 0 <= i < n :: exts[..n][i] == exts[i];
      assert Offered(c, exts, e) <==> Offered(c, exts[..n], e) || e in Submitted(c, exts[n]);
    }
  }

  lemma MedianIsSubmitted(vals: seq<Uint64>)
    requires vals != []
    ensures Median(vals) in vals
  {
    Orders();
    SortSorts(BY_VALUE, vals);
    SameElements(Sort(BY_VALUE, vals), vals);
  }

  /** A pair is aggregated exactly when some extension gives it a usable price; its aggregate
      is then one of the prices submitted for it, and usable. */
  lemma TableExactly(c: Codecs, exts: seq<Bytes>, pair: Bytes)
    ensures pair in Table(c, exts) <==> exists price: Uint64 :: Offered(c, exts, OraclePrice(pair, price))
    ensures pair in Table(c, exts) ==>
            && UsablePrice(OraclePrice(pair, Table(c, exts)[pair]))
            && Offered(c, exts, OraclePrice(pair, Table(c, exts)[pair]))
  {
    var es := Collected(c, exts);
    if pair in Table(c, exts) {
      TableOffered(c, exts, pair);
    }
    if price: Uint64 :| Offered(c, exts, OraclePrice(pair, price)) {
      CollectedExactly(c, exts, OraclePrice(pair, price));
      assert pair in Pairs(es);
    }
  }

  lemma TableOffered(c: Codecs, exts: seq<Bytes>, pair: Bytes)
    requires pair in Table(c, exts)
    ensures UsablePrice(OraclePrice(pair, Table(c, exts)[pair]))
    ensures Offered(c, exts, OraclePrice(pair, Table(c, exts)[pair]))
  {
    var es := Collected(c, exts);
    var e := OraclePrice(pair, Median(Feed(es, pair)));
    MedianIsSubmitted(Feed(es, pair));
    FeedOfPair(es, e);
    CollectedExactly(c, exts, e);
    var i :| 0 <= i < |exts| && e in Submitted(c, exts[i]);
    UsableExactly(c.decodePrices(exts[i]).value, e);
  }

  // ----- Robustness of the median -----

  function CountIn(vals: seq<Uint64>, lo: Uint64, hi: Uint64): (n: nat)
    ensures n <= |vals|
  {
    if vals == [] then 0
    else CountIn(vals[1..], lo, hi) + if lo <= vals[0] <= hi then 1 else 0
  }

  lemma {:induction false} CountInConcat(a: seq<Uint64>, b: seq<Uint64>, lo: Uint64, hi: Uint64)
    ensures CountIn(a + b, lo, hi) == CountIn(a, lo, hi) + CountIn(b, lo, hi)
  {
    if a == [] {
      assert a + b == b;
    } else {
      CountInConcat(a[1..], b, lo, hi);
      assert (a + b)[1..] == a[1..] + b;
    }
  }

  lemma {:induction false} CountInPermutes(a: seq<Uint64>, b: seq<Uint64>, lo: Uint64, hi: Uint64)
    requires multiset(a) == multiset(b)
    ensures CountIn(a, lo, hi) == CountIn(b, lo, hi)
  {
    if a == [] {
      SameElements(a, b);
    } else {
      var k := FindHead(a, b);
      var x, y := b[..k], b[k + 1..];
      CountInPermutes(a[1..], x + y, lo, hi);
      CountInConcat(x, y, lo, hi);
      CountInConcat(x, [a[0]] + y, lo, hi);
      CountInConcat([a[0]], y, lo, hi);
    }
  }

  lemma {:induction false} CountInOutside(vals: seq<Uint64>, lo: Uint64, hi: Uint64)
    requires forall i | 0 <= i < |vals| :: !(lo <= vals[i] <= hi)
    ensures CountIn(vals, lo, hi) == 0
  {
    if vals != [] {
      CountInOutside(vals[1..], lo, hi);
    }
  }

  /** In a sorted list, an element outside the interval has all elements on one side of it
      outside as well. */
  lemma CountInSorted(vals: seq<Uint64>, k: nat, lo: Uint64, hi: Uint64)
    requires SortedBy(BY_VALUE, vals) && k < |vals|
    ensures vals[k] < lo ==> CountIn(vals, lo, hi) <= |vals| - k - 1
    ensures vals[k] > hi ==> CountIn(vals, lo, hi) <= k
  {
    if vals[k] < lo {
      Split(vals, k + 1, lo, hi);
      assert forall i | 0 <= i < k :: BY_VALUE(vals[i], vals[k]);
      CountInOutside(vals[..k + 1], lo, hi);
    }
    if vals[k] > hi {
      Split(vals, k, lo, hi);
      assert forall i | k < i < |vals| :: BY_VALUE(vals[k], vals[i]);
      CountInOutside(vals[k..], lo, hi);
    }
  }

  lemma Split(vals: seq<Uint64>, k: nat, lo: Uint64, hi: Uint64)
    requires k <= |vals|
    ensures CountIn(vals, lo, hi) == CountIn(vals[..k], lo, hi) + CountIn(vals[k..], lo, hi)
  {
    assert vals == vals[..k] + vals[k..];
    CountInConcat(vals[..k], vals[k..], lo, hi);
  }

  /** If more than half of the prices lie in an interval, so does the median. */
  lemma MedianRobust(vals: seq<Uint64>, lo: Uint64, hi: Uint64)
    requires 2 * CountIn(vals, lo, hi) > |vals|
    ensures lo <= Median(vals) <= hi
  {
    Orders();
    var sorted := Sort(BY_VALUE, vals);
    SortSorts(BY_VALUE, vals);
    SameElements(sorted, vals);
    CountInPermutes(vals, sorted, lo, hi);
    CountInSorted(sorted, |vals| / 2, lo, hi);
  }

  /** The same for every aggregated pair, over the entries collected for it. */
  lemma AggregateRobust(c: Codecs, exts: seq<Bytes>, pair: Bytes, lo: Uint64, hi: Uint64)
    requires var vals := Feed(Collected(c, exts), pair); 2 * CountIn(vals, lo, hi) > |vals|
    ensures pair in Table(c, exts) && lo <= Table(c, exts)[pair] <= hi
  {
    FeedNonEmpty(Collected(c, exts), pair);
    MedianRobust(Feed(Collected(c, exts), pair), lo, hi);
  }

  // ----- Fixed point -----

  predicate UsableTable(prices: map<Bytes, Uint64>) {
    forall p | p in prices :: p != [] && prices[p] != 0 && ValidUtf8(p)
  }

  lemma ExtensionDecodes(c: Codecs, prices: map<Bytes, Uint64>)
    requires PriceCodec(c) && UsableTable(prices)
    ensures c.decodePrices(Extension(c, prices)) == Some(Listing(prices))
    ensures Extension(c, prices) != []
  {
    ListingIsStrict(prices);
    assert PortablePrices(Listing(prices));
  }

  lemma {:induction false} UsableAll(ps: seq<OraclePrice>)
    requires forall i | 0 <= i < |ps| :: UsablePrice(ps[i])
    ensures Usable(ps) == ps
  {
    if ps != [] {
      UsableAll(ps[..|ps| - 1]);
      assert ps == ps[..|ps| - 1] + [ps[|ps| - 1]];
    }
  }

  lemma {:induction false} FeedConcat(a: seq<OraclePrice>, b: seq<OraclePrice>, pair: Bytes)
    ensures Feed(a + b, pair) == Feed(a, pair) + Feed(b, pair)
  {
    if b == [] {
      assert a + b == a;
    } else {
      var n := |b| - 1;
      var last := if b[n].pair == pair then [b[n].price] else [];
      calc {
        Feed(a + b, pair);
        { assert (a + b)[..|a| + n] == a + b[..n]; }
        Feed(a + b[..n], pair) + last;
        { FeedConcat(a, b[..n], pair); }
        Feed(a, pair) + Feed(b[..n], pair) + last;
        Feed(a, pair) + (Feed(b[..n], pair) + last);
        Feed(a, pair) + Feed(b, pair);
      }
    }
  }

  lemma {:induction false} FeedAbsent(ps: seq<OraclePrice>, pair: Bytes)
    requires forall i | 0 <= i < |ps| :: ps[i].pair != pair
    ensures Feed(ps, pair) == []
  {
    if ps != [] {
      FeedAbsent(ps[..|ps| - 1], pair);
    }
  }

  lemma {:induction false} FeedOnce(ps: seq<OraclePrice>, k: nat)
    requires k < |ps| && forall i | 0 <= i < |ps| && i != k :: ps[i].pair != ps[k].pair
    ensures Feed(ps, ps[k].pair) == [ps[k].price]
  {
    var n := |ps| - 1;
    if k == n {
      FeedAbsent(ps[..n], ps[k].pair);
    } else {
      FeedOnce(ps[..n], k);
    }
  }

  lemma FeedOfListing(prices: map<Bytes, Uint64>, pair: Bytes)
    ensures Feed(Listing(prices), pair) == if pair in prices then [prices[pair]] else []
  {
    hide Listing, Feed;
    var ps := Listing(prices);
    ListingIsStrict(prices);
    if pair in prices {
      var k :| 0 <= k < |ps| && ps[k] == OraclePrice(pair, prices[pair]);
      forall i | 0 <= i < |ps| && i != k ensures ps[i].pair != pair {
        assert if i < k then Below(ps[i].pair, ps[k].pair) else Below(ps[k].pair, ps[i].pair);
      }
      FeedOnce(ps, k);
    } else {
      FeedAbsent(ps, pair);
    }
  }

  lemma CollectedCopy(c: Codecs, prices: map<Bytes, Uint64>)
    requires PriceCodec(c) && UsableTable(prices)
    ensures Submitted(c, Extension(c, prices)) == Listing(prices)
  {
    ExtensionDecodes(c, prices);
    ListingIsStrict(prices);
    UsableAll(Listing(prices));
  }

  /** One more copy of the table adds each of its prices once. */
  lemma FeedOneMore(c: Codecs, prices: map<Bytes, Uint64>, exts: seq<Bytes>, pair: Bytes)
    requires PriceCodec(c) && UsableTable(prices) && exts != [] && exts[|exts| - 1] == Extension(c, prices)
    ensures Feed(Collected(c, exts), pair) ==
              Feed(Collected(c, exts[..|exts| - 1]), pair) + if pair in prices then [prices[pair]] else []
  {
    hide Listing, Extension, Submitted, Feed;
    var before := Collected(c, exts[..|exts| - 1]);
    CollectedCopy(c, prices);
    assert Collected(c, exts) == before + Listing(prices);
    FeedConcat(before, Listing(prices), pair);
    FeedOfListing(prices, pair);
  }

  lemma {:induction false} FeedOfCopies(c: Codecs, prices: map<Bytes, Uint64>, exts: seq<Bytes>, pair: Bytes)
    requires PriceCodec(c) && UsableTable(prices)
    requires forall i | 0 <= i < |exts| :: exts[i] == Extension(c, prices)
    ensures Feed(Collected(c, exts), pair) == if pair in prices then seq(|exts|, _ => prices[pair]) else []
  {
    hide Listing, Extension, Submitted, PriceCodec, UsableTable;
    if exts == [] {
      assert Feed(Collected(c, exts), pair) == [];
    } else {
      hide Feed, Collected;
      var n := |exts| - 1;
      FeedOfCopies(c, prices, exts[..n], pair);
      FeedOneMore(c, prices, exts, pair);
    }
  }

  lemma MedianOfCopies(n: nat, v: Uint64)
    requires n > 0
    ensures Median(seq(n, _ => v)) == v
  {
    MedianIsSubmitted(seq(n, _ => v));
  }

  lemma TableOfCopies(c: Codecs, prices: map<Bytes, Uint64>, exts: seq<Bytes>)
    requires PriceCodec(c) && UsableTable(prices) && exts != []
    requires forall i | 0 <= i < |exts| :: exts[i] == Extension(c, prices)
    ensures Table(c, exts) == prices
  {
    hide Listing, Extension, Collected, Feed, Median;
    var es := Collected(c, exts);
    forall p ensures p in Table(c, exts) <==> p in prices {
      FeedNonEmpty(es, p);
      FeedOfCopies(c, prices, exts, p);
    }
    forall p | p in prices ensures Table(c, exts)[p] == prices[p] {
      FeedOfCopies(c, prices, exts, p);
      MedianOfCopies(|exts|, prices[p]);
    }
  }

  lemma {:induction false} ApplyOwnEntries(prices: map<Bytes, Uint64>, ps: seq<OraclePrice>)
    requires forall i | 0 <= i < |ps| :: ps[i].pair in prices && prices[ps[i].pair] == ps[i].price
    ensures ApplyPrices(prices, ps) == prices
  {
    if ps != [] {
      ApplyOwnEntries(prices, ps[..|ps| - 1]);
    }
  }

  lemma ApplyOwnTable(prices: map<Bytes, Uint64>)
    ensures ApplyPrices(prices, Listing(prices)) == prices
  {
    hide Listing;
    ListingIsStrict(prices);
    ApplyOwnEntries(prices, Listing(prices));
  }

  lemma OwnTableIsInert(c: Codecs, s: State, index: Uint32, tx: Bytes)
    requires |tx| >= 2 && tx[0] == TX_ORACLE_UPDATE
    requires c.decodePrices(tx[1..]) == Some(Listing(s.prices))
    ensures var e := ExecTx(c, s, index, tx);
            e.state == s && e.outcome.code == 0
  {
    hide Listing, Deposit, Withdraw, LimitOrder, PriceEvents, ApplyPrices;
    ApplyOwnTable(s.prices);
  }

  /** When every extension publishes the current non-empty price table, each one verifies,
      the aggregate is that table, and executing it succeeds and changes nothing. */
  lemma OracleFixedPoint(c: Codecs, s: State, exts: seq<Bytes>, index: Uint32)
    requires PriceCodec(c) && UsableTable(s.prices) && s.prices != map[] && exts != []
    requires forall i | 0 <= i < |exts| :: exts[i] == Extension(c, s.prices)
    ensures forall i | 0 <= i < |exts| :: AcceptsExtension(c, exts[i])
    ensures OracleTx(c, exts).Some?
    ensures c.decodePrices(OracleTx(c, exts).value[1..]) == Some(Listing(s.prices))
    ensures var e := ExecTx(c, s, index, OracleTx(c, exts).value);
            e.state == s && e.outcome.code == 0
  {
    hide Listing, Table, ExecTx;
    ExtensionDecodes(c, s.prices);
    ListingIsStrict(s.prices);
    TableOfCopies(c, s.prices, exts);
    var tx := OracleTx(c, exts).value;
    assert tx[1..] == Extension(c, s.prices);
    OwnTableIsInert(c, s, index, tx);
  }
}
