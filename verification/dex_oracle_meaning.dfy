/** What the oracle aggregation computes, from the submitted price lists alone. */
module DexOracleMeaning {
  import opened Encoding
  import opened Sorting
  import opened DexState
  import opened DexOracle
  import opened DexOracleLaws

  // ----- The feed of a pair -----

  /** How often an extension that decodes lists an entry that names a pair and has a price. */
  function Listings(c: Codecs, ext: Bytes, e: OraclePrice): nat {
    if ext != [] && c.decodePrices(ext).Some? && e.pair != [] && e.price != 0
    then multiset(c.decodePrices(ext).value)[e]
    else 0
  }

  function Offers(c: Codecs, exts: seq<Bytes>, e: OraclePrice): nat {
    if exts == [] then 0 else Offers(c, exts[1..], e) + Listings(c, exts[0], e)
  }

  lemma {:induction false} UsableCounts(ps: seq<OraclePrice>, e: OraclePrice)
    ensures multiset(Usable(ps))[e] == if e.pair != [] && e.price != 0 then multiset(ps)[e] else 0
  {
    if ps == [] {
    } else {
      var front, last := ps[..|ps| - 1], ps[|ps| - 1];
      assert ps == front + [last];
      UsableCounts(front, e);
      AppendCounts(front, last, e);
      AppendCounts(Usable(front), last, e);
      assert Usable(front) + [] == Usable(front);
    }
  }

  lemma ConcatCounts<T>(a: seq<T>, b: seq<T>, x: T)
    ensures multiset(a + b)[x] == multiset(a)[x] + multiset(b)[x]
  {
  }

  lemma {:induction false} CollectedCounts(c: Codecs, exts: seq<Bytes>, e: OraclePrice)
    ensures multiset(Collected(c, exts))[e] == Offers(c, exts, e)
  {
    if exts == [] {
    } else {
      var first, others := Submitted(c, exts[0]), Collected(c, exts[1..]);
      CollectedCounts(c, exts[1..], e);
      var head := exts[..1];
      assert exts == head + exts[1..];
      CollectedConcat(c, head, exts[1..]);
      assert head[..0] == [];
      assert Collected(c, head) == first;
      ConcatCounts(first, others, e);
      if exts[0] != [] && c.decodePrices(exts[0]).Some? {
        UsableCounts(c.decodePrices(exts[0]).value, e);
      }
    }
  }

  /** The feed of a pair holds each price as often as the extensions list it. */
  lemma FeedMeans(c: Codecs, exts: seq<Bytes>, pair: Bytes, price: Uint64)
    ensures Count(Feed(Collected(c, exts), pair), price) == Offers(c, exts, OraclePrice(pair, price))
  {
    FeedCounts(Collected(c, exts), pair, price);
    CollectedCounts(c, exts, OraclePrice(pair, price));
  }

  function Count(s: seq<Uint64>, v: Uint64): nat { multiset(s)[v] }

  // ----- The aggregate -----

  /** The aggregate of a pair is the upper middle one of its prices in ascending order. */
  lemma TableMeans(c: Codecs, exts: seq<Bytes>, pair: Bytes, sorted: seq<Uint64>)
    requires pair in Table(c, exts)
    requires forall v: Uint64 :: Count(sorted, v) == Offers(c, exts, OraclePrice(pair, v))
    requires forall i, j | 0 <= i < j < |sorted| :: sorted[i] <= sorted[j]
    ensures sorted != [] && Table(c, exts)[pair] == sorted[|sorted| / 2]
  {
    var feed := Feed(Collected(c, exts), pair);
    forall v: Uint64 ensures Count(sorted, v) == Count(feed, v) {
      FeedMeans(c, exts, pair, v);
    }
    SameCounts(sorted, feed);
    FeedNonEmpty(Collected(c, exts), pair);
    TableIsMedian(c, exts, pair);
    hide Feed, Collected, Table, Median, Offers;
    SameElements(sorted, feed);
    MedianOfAnySort(feed, sorted);
  }

  lemma SameCounts(a: seq<Uint64>, b: seq<Uint64>)
    requires forall v: Uint64 :: Count(a, v) == Count(b, v)
    ensures multiset(a) == multiset(b)
  {
    forall v: Uint64 ensures multiset(a)[v] == Count(b, v) {
      assert Count(a, v) == Count(b, v);
    }
  }

  lemma TableIsMedian(c: Codecs, exts: seq<Bytes>, pair: Bytes)
    requires pair in Table(c, exts)
    ensures var feed := Feed(Collected(c, exts), pair); feed != [] && Table(c, exts)[pair] == Median(feed)
  {
    FeedNonEmpty(Collected(c, exts), pair);
  }

  /** The pairs of the aggregate are those with a listed price. */
  lemma TablePairs(c: Codecs, exts: seq<Bytes>, pair: Bytes)
    ensures pair in Table(c, exts) <==> exists price: Uint64 :: Offers(c, exts, OraclePrice(pair, price)) > 0
  {
    var feed := Feed(Collected(c, exts), pair);
    FeedNonEmpty(Collected(c, exts), pair);
    assert pair in Table(c, exts) <==> feed != [];
    if feed != [] {
      FeedMeans(c, exts, pair, feed[0]);
      assert feed[0] in multiset(feed);
    }
    if price: Uint64 :| Offers(c, exts, OraclePrice(pair, price)) > 0 {
      FeedMeans(c, exts, pair, price);
      assert price in multiset(feed);
    }
  }

  /** The transaction: none when no price is listed, else the type byte and the JSON of a list
      with one entry for each pair of the aggregate, in strictly increasing order. */
  lemma OracleTxMeans(c: Codecs, exts: seq<Bytes>)
    returns (ps: seq<OraclePrice>)
    ensures OracleTx(c, exts).None? <==> forall e: OraclePrice :: Offers(c, exts, e) == 0
    ensures OracleTx(c, exts).Some? ==> OracleTx(c, exts).value == [4] + c.encodePrices(ps)
    ensures forall i | 0 <= i < |ps| :: ps[i].pair in Table(c, exts) && ps[i].price == Table(c, exts)[ps[i].pair]
    ensures forall pair | pair in Table(c, exts) :: OraclePrice(pair, Table(c, exts)[pair]) in ps
    ensures forall i, j | 0 <= i < j < |ps| :: Below(ps[i].pair, ps[j].pair)
  {
    var table := Table(c, exts);
    forall e: OraclePrice ensures table == map[] ==> Offers(c, exts, e) == 0 {
      TablePairs(c, exts, e.pair);
      assert e == OraclePrice(e.pair, e.price);
    }
    if pair :| pair in table {
      TablePairs(c, exts, pair);
      var price: Uint64 :| Offers(c, exts, OraclePrice(pair, price)) > 0;
    }
    hide Table, Listing, Offers;
    ps := Listing(table);
    ListingIsStrict(table);
  }

  // ----- Verification of extensions -----

  /** An extension is accepted when empty, refused when malformed, and else accepted exactly when
      every entry names its pair. */
  lemma ExtensionVerdict(c: Codecs, ext: Bytes)
    ensures ext == [] ==> AcceptsExtension(c, ext)
    ensures ext != [] && c.decodePrices(ext).None? ==> !AcceptsExtension(c, ext)
    ensures ext != [] && c.decodePrices(ext).Some? ==>
              var ps := c.decodePrices(ext).value;
              (AcceptsExtension(c, ext) <==> !exists i :: 0 <= i < |ps| && ps[i].pair == [])
  {
  }

  /** A validator that publishes a list with a nameless entry is refused. */
  lemma NamelessEntryRefused(c: Codecs, ps: seq<OraclePrice>, k: nat)
    requires PriceCodec(c) && PortablePrices(ps) && k < |ps| && ps[k].pair == []
    ensures !AcceptsExtension(c, c.encodePrices(ps))
  {
    var ext := c.encodePrices(ps);
    assert c.decodePrices(ext) == Some(ps);
    assert ps[k] in ps;
  }
}
