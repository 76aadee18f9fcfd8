/** The DEX application under the lifecycle protocol: every interleaving of server calls
    refines the fold of committed blocks. */
module DexProtocol {
  import opened Encoding
  import opened DexState
  import opened Protocol
  import opened ProtocolSpec
  import opened ProtocolProof
  import opened ProtocolLaws
  import opened DexReachable
  import DexLaws
  import Server

  type DexConfig = Config<State, Option<State>, Block, BlockOutcome>
  type DexEvent = Protocol.Event<Block, BlockOutcome>

  const DEX_CAPABILITIES: set<Capability> := {ProposalControl, VoteExtensions, StateSync, Simulation}

  function Execute(c: Codecs, s: State, b: Block): Staged<Option<State>, BlockOutcome> {
    var e := ExecBlock(c, s, b);
    Staged(Some(e.state), e.outcome)
  }

  /** Committing moves the staged state over; with nothing staged the program crashes. */
  function CommitStaged(s: State, g: Option<State>): CommitEffect<State, Option<State>> {
    match g
    case None => CommitPanics
    case Some(t) => Committed(t, None)
  }

  function Dex(c: Codecs): App<State, Option<State>, Block, BlockOutcome> {
    App(DEX_CAPABILITIES, (b: Block) => b.height, (s: State, b: Block) => Some(Execute(c, s, b)), CommitStaged)
  }

  lemma DexIsSafe(c: Codecs)
    ensures Safe(Dex(c))
  {
    hide ExecBlock;
  }

  lemma {:induction false} FoldIsRun(c: Codecs, s: State, blocks: seq<Block>)
    ensures Fold(Dex(c), s, blocks) == RunBlocks(c, s, blocks)
  {
    hide ExecBlock;
    if blocks != [] {
      FoldIsRun(c, s, blocks[..|blocks| - 1]);
    }
  }

  lemma {:induction false} ReportedIsRun(c: Codecs, s: State, blocks: seq<Block>, outcomes: seq<BlockOutcome>)
    requires Reported(Dex(c), s, blocks, outcomes)
    ensures outcomes == RunOutcomes(c, s, blocks)
  {
    hide ExecBlock;
    if blocks != [] {
      var n := |blocks| - 1;
      var front := blocks[..n];
      forall i | 0 <= i < n
        ensures var r := Dex(c).execute(Fold(Dex(c), s, front[..i]), front[i]);
                r.Some? && r.value.outcome == outcomes[..n][i]
      {
        assert front[..i] == blocks[..i];
      }
      ReportedIsRun(c, s, front, outcomes[..n]);
      FoldIsRun(c, s, front);
      assert outcomes == outcomes[..n] + [outcomes[n]];
    }
  }

  /** Something is staged exactly between a successful execute and its commit. */
  lemma {:induction false} StagedWhenExecuted(c: Codecs, log: seq<DexEvent>)
    requires Replay(Dex(c), GENESIS, None, log).Some?
    ensures var a := Replay(Dex(c), GENESIS, None, log).value; a.word == Executed <==> a.staged.Some?
  {
    hide ExecBlock;
    if log != [] {
      StagedWhenExecuted(c, log[..|log| - 1]);
    }
  }

  /** Every run, any number of threads: the committed state is the fold of the installed blocks;
      something is staged in state Executed and nothing in Init or Ready; in Executed the staged
      state is the next fold and the held outcome carries its hash. */
  lemma EveryRunRefinesFold(c: Codecs, cfg: DexConfig)
    requires Reachable(Dex(c), GENESIS, None, cfg)
    ensures cfg.sh.live == RunBlocks(c, GENESIS, cfg.sh.installed)
    ensures cfg.sh.word == Init || cfg.sh.word == Ready ==> cfg.sh.staged == None
    ensures cfg.sh.word == Executed ==>
              && cfg.sh.log != [] && var last := cfg.sh.log[|cfg.sh.log| - 1];
              && last.ExecuteDone?
              && cfg.sh.staged == Some(RunBlocks(c, GENESIS, cfg.sh.installed + [last.b]))
              && cfg.sh.lastOutcome == Some(last.o) && cfg.sh.lastHeight == last.b.height
              && last.o.appHash == AppHash(c, cfg.sh.staged.value)
    ensures forall t | t in cfg.pcs :: !cfg.pcs[t].CmPanicked?
  {
    hide ExecBlock;
    DexIsSafe(c);
    hide Safe;
    ReachableInv(Dex(c), GENESIS, None, cfg);
    LiveIsFold(Dex(c), GENESIS, None, cfg);
    FieldsAgreeWithGuard(Dex(c), GENESIS, None, cfg);
    FoldIsRun(c, GENESIS, cfg.sh.installed);
    StagedWhenExecuted(c, cfg.sh.log);
    forall t | t in cfg.pcs ensures !cfg.pcs[t].CmPanicked? {
      CommitNeverPanics(Dex(c), GENESIS, None, cfg, t);
    }
    var a := Replay(Dex(c), GENESIS, None, cfg.sh.log).value;
    WordDecides(Dex(c), cfg, a);
    if cfg.sh.word == Executed {
      var last := cfg.sh.log[|cfg.sh.log| - 1];
      assert (cfg.sh.installed + [last.b])[..|cfg.sh.installed|] == cfg.sh.installed;
      HashOfOutcome(c, a.live, a.pending[0]);
    }
  }

  lemma HashOfOutcome(c: Codecs, s: State, b: Block)
    ensures ExecBlock(c, s, b).outcome.appHash == AppHash(c, ExecBlock(c, s, b).state)
  {
  }

  /** The outcomes of the committed blocks are those of the pure run. */
  lemma EveryRunReportsRun(c: Codecs, cfg: DexConfig)
    requires Reachable(Dex(c), GENESIS, None, cfg)
    ensures var r := Replay(Dex(c), GENESIS, None, cfg.sh.log);
            && r.Some? && r.value.outcomes == RunOutcomes(c, GENESIS, r.value.committed)
            && (cfg.sh.seqMu == None ==> cfg.sh.installed == r.value.committed)
  {
    hide ExecBlock;
    DexIsSafe(c);
    CommittedOutcomes(Dex(c), GENESIS, None, cfg);
    var a := Replay(Dex(c), GENESIS, None, cfg.sh.log).value;
    ReportedIsRun(c, GENESIS, a.committed, a.outcomes);
  }

  /** What any query can see, at any interleaving, is a sound state that conserves funds. */
  lemma EveryRunIsSound(c: Codecs, cfg: DexConfig, owner: Address, denom: Bytes)
    requires Reachable(Dex(c), GENESIS, None, cfg)
    ensures Sound(cfg.sh.live)
    ensures var deposits := DexLaws.RunMoved(c, GENESIS, cfg.sh.installed, TX_DEPOSIT, owner, denom);
            var withdrawals := DexLaws.RunMoved(c, GENESIS, cfg.sh.installed, TX_WITHDRAW, owner, denom);
            Wrap64(DexLaws.Holding(cfg.sh.live, owner, denom)) == Wrap64(deposits - withdrawals)
  {
    hide Sound, Wrap64, RunBlocks, DexLaws.RunMoved, DexLaws.Holding;
    assert cfg.sh.live == RunBlocks(c, GENESIS, cfg.sh.installed) by {
      EveryRunRefinesFold(c, cfg);
    }
    hide Reachable;
    ReachableIsSound(c, cfg.sh.installed);
    DexLaws.Conservation(c, cfg.sh.installed, owner, denom);
  }

  /** The same on the server object, after any calls: the committed state is the fold of the
      committed blocks, and in Executed the staged one is the fold with the executed block. */
  lemma ServerRunsDex(c: Codecs, server: Server.Server<State, Option<State>, Block, BlockOutcome>)
    requires server.Valid() && server.app.program == Dex(c)
    requires server.live0 == GENESIS && server.staged0 == None
    ensures Safe(Dex(c))
    ensures var a := server.Replayed().value;
            && server.app.live == RunBlocks(c, GENESIS, a.committed)
            && a.outcomes == RunOutcomes(c, GENESIS, a.committed)
            && (server.guard.state == Executed <==> server.app.staged.Some?)
            && (server.guard.state == Executed ==>
                server.app.staged == Some(RunBlocks(c, GENESIS, a.committed + a.pending)))
  {
    hide ExecBlock;
    DexIsSafe(c);
    hide Safe;
    server.CallsRefineFold();
    StagedWhenExecuted(c, server.log);
    var a := server.Replayed().value;
    ReplayConsistent(Dex(c), GENESIS, None, server.log);
    FoldIsRun(c, GENESIS, a.committed);
    ReportedIsRun(c, GENESIS, a.committed, a.outcomes);
    if server.guard.state == Executed {
      assert (a.committed + a.pending)[..|a.committed|] == a.committed;
    }
  }
}
