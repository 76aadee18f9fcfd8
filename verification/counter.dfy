/** The counter application: a second application under the same server. It stages values
    rather than a clone, and never clears its staging area. */
module Counter {
  import opened Encoding
  import opened Protocol
  import opened ProtocolSpec
  import opened ProtocolProof
  import opened ProtocolLaws
  import DexState

  type Digest = DexState.Digest
  type Block = DexState.Block
  type Sha = Bytes -> Digest

  datatype Memory = Memory(count: Uint64, appHash: Digest, height: Uint64)

  datatype TxOutcome =
    | WrongLength(index: Uint32, got: nat)
    | Incremented(index: Uint32, data: Bytes, amount: Uint64, total: Uint64)

  datatype BlockOutcome = BlockOutcome(txOutcomes: seq<TxOutcome>, appHash: Digest)

  predicate ValidTx(tx: Bytes) { |tx| == 8 }

  function ComputeHash(sha: Sha, count: Uint64): Digest { sha(PutUint64(count)) }

  function IncrementTx(n: Uint64): Bytes { PutUint64(n) }

  function Genesis(sha: Sha): Memory { Memory(0, ComputeHash(sha, 0), 0) }

  const UNSTAGED := Memory(0, seq(32, _ => 0), 0)

  // ----- What a block means -----

  /** The sum of the valid transactions, as an unbounded integer. */
  function Total(txs: seq<Bytes>): nat {
    if txs == [] then 0
    else
      var tx := txs[|txs| - 1];
      Total(txs[..|txs| - 1]) + if ValidTx(tx) then GetUint64(tx) else 0
  }

  /** A valid transaction reports the count so far, itself included. */
  function OutcomeAt(count: Uint64, txs: seq<Bytes>, i: nat): TxOutcome
    requires i < |txs|
  {
    if !ValidTx(txs[i]) then WrongLength(Wrap32(i), |txs[i]|)
    else
      var total := Wrap64(count + Total(txs[..i + 1]));
      Incremented(Wrap32(i), PutUint64(total), GetUint64(txs[i]), total)
  }

  function Execute(sha: Sha, m: Memory, b: Block): Staged<Memory, BlockOutcome> {
    var count := Wrap64(m.count + Total(b.txs));
    var hash := ComputeHash(sha, count);
    Staged(Memory(count, hash, b.height),
           BlockOutcome(seq(|b.txs|, i requires 0 <= i < |b.txs| => OutcomeAt(m.count, b.txs, i)), hash))
  }

  /** The application as the server sees it: a commit copies the staged values. */
  function Program(sha: Sha): App<Memory, Memory, Block, BlockOutcome> {
    App({}, (b: Block) => b.height, (m: Memory, b: Block) => Some(Execute(sha, m, b)),
        (m: Memory, g: Memory) => Committed(g, g))
  }

  lemma WrapAdds(a: int, b: int)
    ensures Wrap64(Wrap64(a) + b) == Wrap64(a + b)
  {
  }

  /** One more transaction, with the wrapping addition of the loop. */
  lemma OneMore(count: Uint64, txs: seq<Bytes>, i: nat)
    requires i < |txs|
    ensures var before := Wrap64(count + Total(txs[..i]));
            Wrap64(count + Total(txs[..i + 1])) ==
              if ValidTx(txs[i]) then Wrap64(before + GetUint64(txs[i])) else before
  {
    hide GetUint64;
    assert txs[..i + 1][..i] == txs[..i];
    if ValidTx(txs[i]) {
      WrapAdds(count + Total(txs[..i]), GetUint64(txs[i]));
    }
  }

  lemma NothingYet(txs: seq<Bytes>)
    ensures Total(txs[..0]) == 0 && Total(txs[..|txs|]) == Total(txs)
  {
    assert txs[..|txs|] == txs;
  }

  class CounterApp {
    const sha: Sha
    var current: Memory
    var staged: Memory

    constructor (sha: Sha)
      ensures this.sha == sha && current == Genesis(sha) && staged == UNSTAGED
    {
      this.sha, current, staged := sha, Genesis(sha), UNSTAGED;
    }

    /** Without a committed block the engine gets the hash of a zero count. */
    method Handshake(lastCommitted: bool) returns (lastBlock: Option<Uint64>, appHash: Digest)
      ensures lastBlock == if lastCommitted then Some(current.height) else None
      ensures appHash == if lastCommitted then current.appHash else Genesis(sha).appHash
    {
      if !lastCommitted {
        return None, ComputeHash(sha, 0);
      }
      return Some(current.height), current.appHash;
    }

    /** One wrapping addition per transaction adds up to the unbounded sum. */
    method ExecuteBlock(b: Block) returns (outcome: BlockOutcome)
      modifies `staged
      ensures Staged(staged, outcome) == Execute(sha, current, b)
    {
      hide Total, GetUint64, PutUint64;
      var newCount := current.count;
      NothingYet(b.txs);
      var outcomes := [];
      for i := 0 to |b.txs|
        invariant newCount == Wrap64(current.count + Total(b.txs[..i]))
        invariant |outcomes| == i
        invariant forall j | 0 <= j < i :: outcomes[j] == OutcomeAt(current.count, b.txs, j)
      {
        var tx := b.txs[i];
        OneMore(current.count, b.txs, i);
        if !ValidTx(tx) {
          outcomes := outcomes + [WrongLength(Wrap32(i), |tx|)];
        } else {
          var inc: int := GetUint64(tx);
          newCount := Wrap64(newCount + inc);
          outcomes := outcomes + [Incremented(Wrap32(i), PutUint64(newCount), inc, newCount)];
        }
      }
      assert b.txs[..|b.txs|] == b.txs;
      var newHash := ComputeHash(sha, newCount);
      staged := Memory(newCount, newHash, b.height);
      outcome := BlockOutcome(outcomes, newHash);
      assert outcome.txOutcomes == Execute(sha, current, b).outcome.txOutcomes;
    }

    method Commit()
      modifies `current
      ensures current == staged
    {
      current := staged;
    }

    method Query() returns (value: Bytes, height: Uint64)
      ensures |value| == 8 && GetUint64(value) == current.count && height == current.height
    {
      value, height := PutUint64(current.count), current.height;
      GetPutUint64(current.count, []);
      assert value + [] == value;
    }
  }

  // ----- Laws -----

  /** The valid transactions are exactly those that IncrementTx builds. */
  lemma IncrementTxExactly(tx: Bytes)
    ensures ValidTx(tx) <==> exists n: Uint64 :: tx == IncrementTx(n)
    ensures forall n: Uint64 :: ValidTx(IncrementTx(n)) && GetUint64(IncrementTx(n)) == n
  {
    if ValidTx(tx) {
      PutGetUint64(tx);
      assert tx == IncrementTx(GetUint64(tx));
    }
    forall n: Uint64 ensures GetUint64(IncrementTx(n)) == n {
      GetPutUint64(n, []);
      assert PutUint64(n) + [] == PutUint64(n);
    }
  }

  /** The sum over all blocks of a run. */
  function RunTotal(blocks: seq<Block>): nat {
    if blocks == [] then 0 else RunTotal(blocks[..|blocks| - 1]) + Total(blocks[|blocks| - 1].txs)
  }

  lemma ProgramAdds(sha: Sha, m: Memory, b: Block)
    ensures var count := Wrap64(m.count + Total(b.txs));
            var after := Memory(count, ComputeHash(sha, count), b.height);
            && Program(sha).execute(m, b).value.staged == after
            && Advance(Program(sha), m, b) == after
  {
    hide Total, OutcomeAt;
  }

  /** After any committed run the count is the sum of all 8-byte transactions modulo 2^64. */
  lemma {:induction false} CountIsSum(sha: Sha, blocks: seq<Block>)
    ensures Fold(Program(sha), Genesis(sha), blocks) ==
              var count := Wrap64(RunTotal(blocks));
              Memory(count, ComputeHash(sha, count), if blocks == [] then 0 else blocks[|blocks| - 1].height)
  {
    hide Program, Total, ComputeHash, Wrap64, Advance;
    if blocks == [] {
      assert Wrap64(0) == 0 by { WrapOnce(0); }
    } else {
      var front, last := blocks[..|blocks| - 1], blocks[|blocks| - 1];
      CountIsSum(sha, front);
      ProgramAdds(sha, Fold(Program(sha), Genesis(sha), front), last);
      WrapAdds(RunTotal(front), Total(last.txs));
    }
  }

  lemma SuccessDecodes(count: Uint64, txs: seq<Bytes>, i: nat)
    requires i < |txs|
    ensures var o := OutcomeAt(count, txs, i);
            && o.index == Wrap32(i)
            && (o.Incremented? <==> ValidTx(txs[i]))
            && (o.WrongLength? ==> o.got == |txs[i]|)
            && (o.Incremented? ==>
                && |o.data| == 8 && GetUint64(o.data) == Wrap64(count + Total(txs[..i + 1])) == o.total
                && o.amount == GetUint64(txs[i]))
  {
    var total := Wrap64(count + Total(txs[..i + 1]));
    GetPutUint64(total, []);
    assert PutUint64(total) + [] == PutUint64(total);
  }

  /** Each success encodes its prefix sum over the whole run. */
  lemma DataIsPrefixSum(sha: Sha, blocks: seq<Block>, outcomes: seq<BlockOutcome>, k: nat, i: nat)
    requires Reported(Program(sha), Genesis(sha), blocks, outcomes)
    requires k < |blocks| && i < |blocks[k].txs|
    ensures |outcomes[k].txOutcomes| == |blocks[k].txs|
    ensures var o := outcomes[k].txOutcomes[i];
            && o.index == Wrap32(i)
            && (o.Incremented? <==> ValidTx(blocks[k].txs[i]))
            && (o.WrongLength? ==> o.got == |blocks[k].txs[i]|)
            && (o.Incremented? ==>
                && |o.data| == 8 && GetUint64(o.data) == o.total && o.amount == GetUint64(blocks[k].txs[i])
                && o.total == Wrap64(RunTotal(blocks[..k]) + Total(blocks[k].txs[..i + 1])))
  {
    hide Total, OutcomeAt, GetUint64, PutUint64, Wrap64, RunTotal;
    var before := Fold(Program(sha), Genesis(sha), blocks[..k]);
    assert Program(sha).execute(before, blocks[k]).value.outcome == outcomes[k];
    CountIsSum(sha, blocks[..k]);
    assert outcomes[k].txOutcomes[i] == OutcomeAt(before.count, blocks[k].txs, i);
    SuccessDecodes(before.count, blocks[k].txs, i);
    WrapAdds(RunTotal(blocks[..k]), Total(blocks[k].txs[..i + 1]));
  }

  /** The sum adds the transactions of eight bytes, and no others. */
  lemma TotalMeans(txs: seq<Bytes>, tx: Bytes)
    ensures Total([]) == 0
    ensures Total(txs + [tx]) == Total(txs) + if |tx| == 8 then GetUint64(tx) else 0
  {
    assert (txs + [tx])[..|txs|] == txs;
  }

  /** The reported hash is the one of the count that a commit installs, of its eight bytes. */
  lemma HashMeans(sha: Sha, m: Memory, b: Block)
    ensures var r := Execute(sha, m, b);
            && r.outcome.appHash == r.staged.appHash == sha(PutUint64(r.staged.count))
            && Program(sha).heightOf(b) == b.height == r.staged.height
            && Program(sha).implements == {}
  {
    hide Total, OutcomeAt, PutUint64;
  }

  lemma CounterIsSafe(sha: Sha)
    ensures Safe(Program(sha))
  {
  }

  lemma RunTotalAppend(blocks: seq<Block>, b: Block)
    ensures Wrap64(Wrap64(RunTotal(blocks)) + Total(b.txs)) == Wrap64(RunTotal(blocks + [b]))
  {
    assert (blocks + [b])[..|blocks|] == blocks;
    WrapAdds(RunTotal(blocks), Total(b.txs));
  }

  /** Under the server, at every interleaving, a query reads the sum over the installed blocks,
      and in state Executed the staged count is the sum with the executed block. */
  lemma EveryRunCounts(sha: Sha, cfg: Config<Memory, Memory, Block, BlockOutcome>)
    requires Reachable(Program(sha), Genesis(sha), UNSTAGED, cfg)
    ensures cfg.sh.live.count == Wrap64(RunTotal(cfg.sh.installed))
    ensures cfg.sh.word == Executed ==>
              && cfg.sh.log != [] && cfg.sh.log[|cfg.sh.log| - 1].ExecuteDone?
              && var b := cfg.sh.log[|cfg.sh.log| - 1].b;
              cfg.sh.staged.count == Wrap64(RunTotal(cfg.sh.installed + [b]))
  {
    hide Total, OutcomeAt, Execute, RunTotal, Wrap64;
    CounterIsSafe(sha);
    hide Safe, Program, Reachable, Fold, Advance;
    LiveIsFold(Program(sha), Genesis(sha), UNSTAGED, cfg);
    CountIsSum(sha, cfg.sh.installed);
    if cfg.sh.word == Executed {
      FieldsAgreeWithGuard(Program(sha), Genesis(sha), UNSTAGED, cfg);
      ProgramAdds(sha, cfg.sh.live, cfg.sh.log[|cfg.sh.log| - 1].b);
      RunTotalAppend(cfg.sh.installed, cfg.sh.log[|cfg.sh.log| - 1].b);
    }
  }
}
