/** Building a block proposal from the mempool and verifying a received one. */
module DexProposal {
  import opened Encoding
  import opened DexState
  import opened DexOracle
  import opened DexOracleLaws

  predicate IsOracle(tx: Bytes) { tx != [] && tx[0] == TX_ORACLE_UPDATE }

  function TotalSize(txs: seq<Bytes>): nat {
    if txs == [] then 0 else TotalSize(txs[..|txs| - 1]) + |txs[|txs| - 1]|
  }

  /** The transactions whose position is marked, in their order. */
  function Marked(txs: seq<Bytes>, mask: seq<bool>): seq<Bytes>
    requires |mask| == |txs|
  {
    if txs == [] then []
    else
      var n := |txs| - 1;
      Marked(txs[..n], mask[..n]) + if mask[n] then [txs[n]] else []
  }

  datatype Filled = Filled(taken: seq<Bytes>, mask: seq<bool>, total: Uint64)

  /** One step of the greedy pass, in wrapping uint64 arithmetic. */
  function Offer(prior: Filled, tx: Bytes, maxBytes: Uint64): Filled {
    var sum := Wrap64(prior.total + |tx|);
    if sum > maxBytes || IsOracle(tx) then Filled(prior.taken, prior.mask + [false], prior.total)
    else Filled(prior.taken + [tx], prior.mask + [true], sum)
  }

  /** The greedy pass over the mempool: the transactions it takes, their positions, and the
      total it counts. */
  function Fill(mempool: seq<Bytes>, start: Uint64, maxBytes: Uint64): (f: Filled)
    ensures |f.mask| == |mempool|
  {
    if mempool == [] then Filled([], [], start)
    else Offer(Fill(mempool[..|mempool| - 1], start, maxBytes), mempool[|mempool| - 1], maxBytes)
  }

  /** What is taken is a subsequence of the mempool in its order, without oracle updates. */
  lemma {:induction false} FillSelects(mempool: seq<Bytes>, start: Uint64, maxBytes: Uint64)
    ensures var f := Fill(mempool, start, maxBytes);
            f.taken == Marked(mempool, f.mask) && forall tx | tx in f.taken :: !IsOracle(tx)
  {
    if mempool != [] {
      var n := |mempool| - 1;
      FillSelects(mempool[..n], start, maxBytes);
      var prior, f := Fill(mempool[..n], start, maxBytes), Fill(mempool, start, maxBytes);
      assert f.mask[..n] == prior.mask;
      assert prior.taken + [] == prior.taken;
    }
  }

  /** The injected prefix: the oracle transaction, when there is one and it fits. */
  ghost function Injected(c: Codecs, exts: seq<Bytes>, maxBytes: Uint64): (txs: seq<Bytes>)
    ensures |txs| <= 1
  {
    var tx := OracleTx(c, exts);
    if exts != [] && tx.Some? && Wrap64(|tx.value|) <= maxBytes then [tx.value] else []
  }

  ghost function FillAfter(c: Codecs, mempool: seq<Bytes>, exts: seq<Bytes>, maxBytes: Uint64): (f: Filled)
    ensures |f.mask| == |mempool|
  {
    Fill(mempool, Wrap64(TotalSize(Injected(c, exts, maxBytes))), maxBytes)
  }

  ghost function Proposal(c: Codecs, mempool: seq<Bytes>, exts: seq<Bytes>, maxBytes: Uint64): seq<Bytes> {
    Injected(c, exts, maxBytes) + FillAfter(c, mempool, exts, maxBytes).taken
  }

  method InjectOracle(c: Codecs, exts: seq<Bytes>, maxBytes: Uint64)
    returns (txs: seq<Bytes>, totalBytes: Uint64)
    ensures txs == Injected(c, exts, maxBytes) && totalBytes == Wrap64(TotalSize(txs))
  {
    hide OracleTx;
    txs, totalBytes := [], 0;
    if |exts| > 0 {
      var oracleTx := BuildOracleTx(c, exts);
      if oracleTx.Some? {
        var txSize := Wrap64(|oracleTx.value|);
        if txSize <= maxBytes {
          txs := txs + [oracleTx.value];
          totalBytes := Wrap64(totalBytes + txSize);
          TotalSizeOne(oracleTx.value);
        }
      }
    }
  }

  lemma FillFirst(mempool: seq<Bytes>, start: Uint64, maxBytes: Uint64)
    ensures Fill(mempool[..0], start, maxBytes) == Filled([], [], start)
  {
  }

  lemma FillNext(mempool: seq<Bytes>, i: nat, start: Uint64, maxBytes: Uint64)
    requires i < |mempool|
    ensures Fill(mempool[..i + 1], start, maxBytes) == Offer(Fill(mempool[..i], start, maxBytes), mempool[i], maxBytes)
  {
    assert mempool[..i + 1][..i] == mempool[..i];
  }

  method BuildProposal(c: Codecs, mempool: seq<Bytes>, exts: seq<Bytes>, maxBytes: Uint64)
    returns (txs: seq<Bytes>)
    ensures txs == Proposal(c, mempool, exts, maxBytes)
  {
    hide Injected, Fill;
    var totalBytes: Uint64;
    txs, totalBytes := InjectOracle(c, exts, maxBytes);
    ghost var injected, start := txs, totalBytes;
    FillFirst(mempool, start, maxBytes);
    for i := 0 to |mempool|
      invariant totalBytes == Fill(mempool[..i], start, maxBytes).total
      invariant txs == injected + Fill(mempool[..i], start, maxBytes).taken
    {
      FillNext(mempool, i, start, maxBytes);
      var txSize := Wrap64(|mempool[i]|);
      assert Wrap64(totalBytes + txSize) == Wrap64(totalBytes + |mempool[i]|);
      if Wrap64(totalBytes + txSize) > maxBytes {
        continue;
      }
      if |mempool[i]| > 0 && mempool[i][0] == TX_ORACLE_UPDATE {
        continue;
      }
      txs := txs + [mempool[i]];
      totalBytes := Wrap64(totalBytes + txSize);
    }
    assert mempool[..|mempool|] == mempool;
  }

  // ----- Size and maximality -----

  /** No sum of the greedy pass can wrap. */
  predicate SizesFit(mempool: seq<Bytes>, maxBytes: Uint64) {
    forall i | 0 <= i < |mempool| :: maxBytes + |mempool[i]| < TWO64
  }

  lemma TotalSizeAppend(txs: seq<Bytes>, tx: Bytes)
    ensures TotalSize(txs + [tx]) == TotalSize(txs) + |tx|
  {
    assert (txs + [tx])[..|txs|] == txs;
  }

  lemma TotalSizeOne(tx: Bytes)
    ensures TotalSize([tx]) == |tx|
  {
    assert [tx][..0] == [];
  }

  lemma {:induction false} TotalSizeConcat(a: seq<Bytes>, b: seq<Bytes>)
    ensures TotalSize(a + b) == TotalSize(a) + TotalSize(b)
  {
    if b == [] {
      assert a + b == a;
    } else {
      var n := |b| - 1;
      TotalSizeConcat(a, b[..n]);
      TotalSizeAppend(a + b[..n], b[n]);
      assert a + b == a + b[..n] + [b[n]];
    }
  }

  /** When the sum does not wrap, the total counts what is taken. */
  lemma OfferCounts(prior: Filled, tx: Bytes, maxBytes: Uint64)
    requires prior.total + |tx| < TWO64 && prior.total <= maxBytes
    ensures var f := Offer(prior, tx, maxBytes);
            && prior.total <= f.total <= maxBytes && f.total <= prior.total + |tx|
            && f.total - TotalSize(f.taken) == prior.total - TotalSize(prior.taken)
  {
    hide Wrap64, IsOracle, TotalSize;
    WrapOnce(prior.total + |tx|);
    TotalSizeAppend(prior.taken, tx);
  }

  lemma {:induction false} FillCounts(mempool: seq<Bytes>, start: Uint64, maxBytes: Uint64)
    requires SizesFit(mempool, maxBytes) && start <= maxBytes
    ensures var f := Fill(mempool, start, maxBytes);
            start <= f.total == start + TotalSize(f.taken) <= maxBytes
  {
    hide Offer;
    if mempool != [] {
      hide TotalSize;
      var n := |mempool| - 1;
      FillCounts(mempool[..n], start, maxBytes);
      OfferCounts(Fill(mempool[..n], start, maxBytes), mempool[n], maxBytes);
    }
  }

  /** The total only grows, and a transaction is left out for being an oracle update or for
      not fitting. */
  lemma OfferGrows(prior: Filled, tx: Bytes, maxBytes: Uint64)
    requires maxBytes + |tx| < TWO64 && prior.total <= maxBytes
    ensures var f := Offer(prior, tx, maxBytes);
            && |f.mask| == |prior.mask| + 1 && f.mask[..|prior.mask|] == prior.mask
            && f.total >= prior.total
            && (!f.mask[|prior.mask|] && !IsOracle(tx) ==> prior.total + |tx| > maxBytes)
  {
    hide Wrap64, IsOracle;
    WrapOnce(prior.total + |tx|);
  }

  /** A transaction left at position i, and not for being an oracle update, no longer fits. */
  lemma {:induction false} FillMaximal(mempool: seq<Bytes>, start: Uint64, maxBytes: Uint64, i: nat)
    requires SizesFit(mempool, maxBytes) && start <= maxBytes
    requires i < |mempool| && !Fill(mempool, start, maxBytes).mask[i] && !IsOracle(mempool[i])
    ensures Fill(mempool, start, maxBytes).total + |mempool[i]| > maxBytes
  {
    hide IsOracle, Offer, TotalSize;
    var n := |mempool| - 1;
    FillCounts(mempool[..n], start, maxBytes);
    OfferGrows(Fill(mempool[..n], start, maxBytes), mempool[n], maxBytes);
    if i < n {
      assert Fill(mempool, start, maxBytes).mask[..n][i] == Fill(mempool, start, maxBytes).mask[i];
      FillMaximal(mempool[..n], start, maxBytes, i);
    }
  }

  lemma InjectedFits(c: Codecs, exts: seq<Bytes>, maxBytes: Uint64)
    requires OracleTx(c, exts).Some? ==> |OracleTx(c, exts).value| < TWO64
    ensures var size := TotalSize(Injected(c, exts, maxBytes)); Wrap64(size) == size <= maxBytes
  {
    hide OracleTx, TotalSize;
    var injected := Injected(c, exts, maxBytes);
    if injected == [] {
      FillNone(0, maxBytes);
    } else {
      TotalSizeOne(injected[0]);
    }
  }

  /** The proposal respects the byte limit and is maximal: no transaction that was left out,
      oracle updates apart, could still be appended. */
  lemma ProposalBoundedAndMaximal(c: Codecs, mempool: seq<Bytes>, exts: seq<Bytes>, maxBytes: Uint64)
    requires SizesFit(mempool, maxBytes)
    requires OracleTx(c, exts).Some? ==> |OracleTx(c, exts).value| < TWO64
    ensures var txs, mask := Proposal(c, mempool, exts, maxBytes), FillAfter(c, mempool, exts, maxBytes).mask;
            && TotalSize(txs) <= maxBytes
            && forall i | 0 <= i < |mempool| && !mask[i] && !IsOracle(mempool[i]) ::
                 TotalSize(txs + [mempool[i]]) > maxBytes
  {
    hide Injected, Fill, TotalSize, IsOracle, Wrap64;
    InjectedFits(c, exts, maxBytes);
    var injected := Injected(c, exts, maxBytes);
    var f := FillAfter(c, mempool, exts, maxBytes);
    FillCounts(mempool, TotalSize(injected), maxBytes);
    TotalSizeConcat(injected, f.taken);
    forall i | 0 <= i < |mempool| && !f.mask[i] && !IsOracle(mempool[i])
      ensures TotalSize(Proposal(c, mempool, exts, maxBytes) + [mempool[i]]) > maxBytes
    {
      FillMaximal(mempool, TotalSize(injected), maxBytes, i);
      TotalSizeAppend(Proposal(c, mempool, exts, maxBytes), mempool[i]);
    }
  }

  /** An optional oracle transaction, then mempool transactions in their order, none of them
      an oracle update. */
  lemma ProposalShape(c: Codecs, mempool: seq<Bytes>, exts: seq<Bytes>, maxBytes: Uint64)
    ensures var mask := FillAfter(c, mempool, exts, maxBytes).mask;
            && Proposal(c, mempool, exts, maxBytes) == Injected(c, exts, maxBytes) + Marked(mempool, mask)
            && forall tx | tx in Marked(mempool, mask) :: !IsOracle(tx)
  {
    FillSelects(mempool, Wrap64(TotalSize(Injected(c, exts, maxBytes))), maxBytes);
  }

  // ----- The exact size condition -----

  /** A mempool within the lengths of Go slices, each transaction at most so long. */
  predicate Mempool(txs: seq<Bytes>, longest: Length) {
    |txs| < TWO63 && forall tx | tx in txs :: |tx| <= longest
  }

  lemma {:induction false} TotalSizeAtMost(txs: seq<Bytes>, longest: nat)
    requires forall tx | tx in txs :: |tx| <= longest
    ensures TotalSize(txs) <= |txs| * longest
  {
    if txs != [] {
      var n := |txs| - 1;
      TotalSizeAtMost(txs[..n], longest);
      assert |txs| * longest == n * longest + longest;
    }
  }

  /** While the start and the whole mempool sum up to less than 2^64, no sum wraps either. */
  lemma {:induction false} FillCountsSmall(mempool: seq<Bytes>, start: Uint64, maxBytes: Uint64)
    requires start + TotalSize(mempool) < TWO64 && start <= maxBytes
    ensures var f := Fill(mempool, start, maxBytes);
            f.total == start + TotalSize(f.taken) <= maxBytes && f.total <= start + TotalSize(mempool)
  {
    hide Offer;
    if mempool != [] {
      var n := |mempool| - 1;
      assert TotalSize(mempool) == TotalSize(mempool[..n]) + |mempool[n]|;
      hide TotalSize;
      FillCountsSmall(mempool[..n], start, maxBytes);
      OfferCounts(Fill(mempool[..n], start, maxBytes), mempool[n], maxBytes);
    }
  }

  function Blank(n: nat): (tx: Bytes)
    ensures |tx| == n && !IsOracle(tx)
  {
    seq(n, _ => 0)
  }

  function Copies(tx: Bytes, n: nat): (txs: seq<Bytes>)
    ensures |txs| == n && forall t | t in txs :: t == tx
  {
    if n == 0 then [] else Copies(tx, n - 1) + [tx]
  }

  lemma FillNone(start: Uint64, maxBytes: Uint64)
    ensures Fill([], start, maxBytes) == Filled([], [], start) && TotalSize([]) == 0
  {
  }

  /** One more transaction that the wrapped sum lets through. */
  lemma TakesNext(mempool: seq<Bytes>, tx: Bytes, start: Uint64, maxBytes: Uint64)
    requires !IsOracle(tx) && Wrap64(Fill(mempool, start, maxBytes).total + |tx|) <= maxBytes
    ensures var f, g := Fill(mempool, start, maxBytes), Fill(mempool + [tx], start, maxBytes);
            g.total == Wrap64(f.total + |tx|) && TotalSize(g.taken) == TotalSize(f.taken) + |tx|
  {
    hide TotalSize, IsOracle, Wrap64;
    assert (mempool + [tx])[..|mempool|] == mempool;
    TotalSizeAppend(Fill(mempool, start, maxBytes).taken, tx);
  }

  lemma {:induction false} FillCopies(tx: Bytes, n: nat, start: Uint64, maxBytes: Uint64)
    requires !IsOracle(tx) && start + n * |tx| <= maxBytes
    ensures var f := Fill(Copies(tx, n), start, maxBytes);
            f.total == start + n * |tx| && TotalSize(f.taken) == n * |tx|
  {
    hide Fill, TotalSize, IsOracle, Wrap64;
    FillNone(start, maxBytes);
    if n > 0 {
      assert n * |tx| == (n - 1) * |tx| + |tx|;
      FillCopies(tx, n - 1, start, maxBytes);
      WrapOnce(start + n * |tx|);
      TakesNext(Copies(tx, n - 1), tx, start, maxBytes);
    }
  }

  lemma {:induction false} Divide(n: nat, d: nat) returns (q: nat, rest: nat)
    requires d > 0
    ensures q * d + rest == n && rest < d
  {
    if n < d {
      q, rest := 0, n;
    } else {
      q, rest := Divide(n - d, d);
      assert (q + 1) * d == q * d + d;
      q := q + 1;
    }
  }

  lemma {:induction false} AtLeastThrice(q: nat, d: nat)
    requires d >= 3
    ensures 3 * q <= q * d
  {
    if q > 0 {
      AtLeastThrice(q - 1, d);
      assert q * d == (q - 1) * d + d;
    }
  }

  /** A sum from start up to 2^64 - longest, made of few transactions. */
  lemma FillUp(start: Length, maxBytes: Uint64, longest: Length) returns (mempool: seq<Bytes>)
    requires longest >= 3 || (longest == 2 && start >= 2)
    requires maxBytes + longest >= TWO64
    ensures |mempool| + 1 < TWO63 && forall tx | tx in mempool :: |tx| <= longest
    ensures var f := Fill(mempool, start, maxBytes);
            f.total == TWO64 - longest && TotalSize(f.taken) == TWO64 - longest - start
  {
    hide Blank, TotalSize, Fill, IsOracle, Wrap64, Copies;
    var q, rest := Divide(TWO64 - longest - start, longest);
    if longest >= 3 {
      AtLeastThrice(q, longest);
    }
    var long, short := Blank(longest), Blank(rest);
    assert q * |long| == q * longest;
    mempool := Copies(long, q);
    FillCopies(long, q, start, maxBytes);
    if rest > 0 {
      WrapOnce(TWO64 - longest);
      TakesNext(mempool, short, start, maxBytes);
      mempool := mempool + [short];
    }
  }

  /** A mempool that the wrapping sum lets through although it exceeds the limit: the last
      transaction brings the sum from 2^64 less its length back to zero. */
  lemma WrapOverfills(start: Length, maxBytes: Uint64, longest: Length) returns (mempool: seq<Bytes>)
    requires longest >= 3 || (longest == 2 && start >= 2)
    requires maxBytes + longest >= TWO64
    ensures Mempool(mempool, longest)
    ensures start + TotalSize(Fill(mempool, start, maxBytes).taken) == TWO64
  {
    hide Blank, TotalSize, Fill, IsOracle, Wrap64;
    var most := FillUp(start, maxBytes, longest);
    WrapOnce(TWO64);
    TakesNext(most, Blank(longest), start, maxBytes);
    mempool := most + [Blank(longest)];
  }

  /** The size of a proposal is that of the injected transaction and of what the pass takes. */
  lemma ProposalSize(c: Codecs, mempool: seq<Bytes>, exts: seq<Bytes>, maxBytes: Uint64)
    requires OracleTx(c, exts).Some? ==> |OracleTx(c, exts).value| < TWO64
    ensures var start := TotalSize(Injected(c, exts, maxBytes));
            && start <= maxBytes
            && TotalSize(Proposal(c, mempool, exts, maxBytes)) ==
               start + TotalSize(Fill(mempool, start, maxBytes).taken)
  {
    hide Injected, Fill, TotalSize, Wrap64;
    InjectedFits(c, exts, maxBytes);
    var injected := Injected(c, exts, maxBytes);
    TotalSizeConcat(injected, Fill(mempool, TotalSize(injected), maxBytes).taken);
  }

  /** When no sum of the pass can reach 2^64. */
  predicate NoWrap(start: nat, maxBytes: Uint64, longest: Length) {
    maxBytes + longest < TWO64 || longest <= 1 || (longest == 2 && start <= 1)
  }

  lemma FillRespectsLimit(mempool: seq<Bytes>, start: Length, maxBytes: Uint64, longest: Length)
    requires Mempool(mempool, longest) && NoWrap(start, maxBytes, longest) && start <= maxBytes
    ensures start + TotalSize(Fill(mempool, start, maxBytes).taken) <= maxBytes
  {
    hide Fill, TotalSize;
    if maxBytes + longest < TWO64 {
      FillCounts(mempool, start, maxBytes);
    } else {
      TotalSizeAtMost(mempool, longest);
      FillCountsSmall(mempool, start, maxBytes);
    }
  }

  /** The limit is respected on every mempool of transactions up to a given length exactly when
      the largest sum, limit plus length, does not wrap, or no list is long enough to reach it. An
      injected oracle transaction counts: with it, transactions of two bytes are long enough. */
  lemma SizeLimitExact(c: Codecs, exts: seq<Bytes>, maxBytes: Uint64, longest: Length)
    requires OracleTx(c, exts).Some? ==> |OracleTx(c, exts).value| < TWO63
    ensures NoWrap(TotalSize(Injected(c, exts, maxBytes)), maxBytes, longest) <==>
            forall mempool | Mempool(mempool, longest) ::
              TotalSize(Proposal(c, mempool, exts, maxBytes)) <= maxBytes
  {
    InjectedLength(c, exts, maxBytes);
    hide Injected, Proposal, TotalSize, Fill;
    var start := TotalSize(Injected(c, exts, maxBytes));
    if NoWrap(start, maxBytes, longest) {
      forall mempool | Mempool(mempool, longest)
        ensures TotalSize(Proposal(c, mempool, exts, maxBytes)) <= maxBytes
      {
        ProposalSize(c, mempool, exts, maxBytes);
        FillRespectsLimit(mempool, start, maxBytes, longest);
      }
    } else {
      var mempool := WrapOverfills(start, maxBytes, longest);
      ProposalSize(c, mempool, exts, maxBytes);
    }
  }

  lemma InjectedLength(c: Codecs, exts: seq<Bytes>, maxBytes: Uint64)
    requires OracleTx(c, exts).Some? ==> |OracleTx(c, exts).value| < TWO63
    ensures TotalSize(Injected(c, exts, maxBytes)) < TWO63
  {
    hide OracleTx, TotalSize;
    var injected := Injected(c, exts, maxBytes);
    if injected == [] {
      FillNone(0, maxBytes);
    } else {
      TotalSizeOne(injected[0]);
    }
  }

  /** What is injected has two bytes at least, since JSON is not empty. */
  lemma InjectedCounts(c: Codecs, exts: seq<Bytes>, maxBytes: Uint64)
    requires PriceCodec(c)
    ensures TotalSize(Injected(c, exts, maxBytes)) <= 1 <==> Injected(c, exts, maxBytes) == []
  {
    hide TotalSize, OracleTx;
    FillNone(0, maxBytes);
    var injected := Injected(c, exts, maxBytes);
    if injected != [] {
      TotalSizeOne(injected[0]);
      OracleTxIsHonest(c, exts);
      assert c.decodePrices(injected[0][1..]).Some?;
      assert injected[0][1..] != [];
    }
  }

  // ----- Verification -----

  predicate HonestPrices(c: Codecs, tx: Bytes)
    requires tx != []
  {
    c.decodePrices(tx[1..]).Some? && forall p | p in c.decodePrices(tx[1..]).value :: UsablePrice(p)
  }

  /** VerifyProposal's verdict. With extensions at hand and no oracle transaction in front it
      accepts without looking further. */
  predicate AcceptsProposal(c: Codecs, txs: seq<Bytes>, exts: seq<Bytes>) {
    || txs == []
    || (exts != [] && !IsOracle(txs[0]))
    || (&& (IsOracle(txs[0]) ==> HonestPrices(c, txs[0]))
        && forall i | 1 <= i < |txs| :: !IsOracle(txs[i]))
  }

  lemma OracleTxIsHonest(c: Codecs, exts: seq<Bytes>)
    requires PriceCodec(c) && OracleTx(c, exts).Some?
    ensures IsOracle(OracleTx(c, exts).value) && HonestPrices(c, OracleTx(c, exts).value)
    ensures c.decodePrices(OracleTx(c, exts).value[1..]) == Some(Listing(Table(c, exts)))
  {
    hide Listing, Table;
    var table := Table(c, exts);
    var ps := Listing(table);
    ListingIsStrict(table);
    forall i | 0 <= i < |ps| ensures ValidUtf8(ps[i].pair) && UsablePrice(ps[i]) {
      TableOffered(c, exts, ps[i].pair);
      var j :| 0 <= j < |exts| && ps[i] in Submitted(c, exts[j]);
      UsableExactly(c.decodePrices(exts[j]).value, ps[i]);
    }
    assert PortablePrices(ps);
    assert OracleTx(c, exts).value[1..] == c.encodePrices(ps);
  }

  /** Every validator accepts what BuildProposal builds, whatever extensions it holds itself. */
  lemma BuiltProposalVerifies(c: Codecs, mempool: seq<Bytes>, exts: seq<Bytes>, maxBytes: Uint64, held: seq<Bytes>)
    requires PriceCodec(c)
    ensures AcceptsProposal(c, Proposal(c, mempool, exts, maxBytes), held)
  {
    hide OracleTx;
    var injected := Injected(c, exts, maxBytes);
    ProposalShape(c, mempool, exts, maxBytes);
    if injected != [] {
      OracleTxIsHonest(c, exts);
    }
  }
}
