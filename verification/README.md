# A verified model of bapi

bapi is the boundary between a consensus engine and a blockchain application. This project models
its two hardest parts in Dafny and proves what they promise:

- the **lifecycle protocol** of `server/state_machine.go` and `server/server.go`, as a transition
  system over any number of threads in which every compare-and-swap, load, store, lock and unlock
  is one step, and as the server object that one engine thread sees;
- the **DEX application** of `example/dex/app.go`: a ledger of mutable nested maps with a deep
  clone, two-phase block execution, the transaction format, the proposal builder and its verifier,
  the median oracle, and chunked state sync in uint32 arithmetic.

The two are composed: the DEX runs under the protocol, and so does the counter application of
`example/counter/app.go`, which stages differently.

## Layout

| files | content |
|---|---|
| `encoding.dfy`, `encoding_laws.dfy`, `sorting.dfy` | Go integers, bytes, big-endian, hexadecimal, UTF-8, string order, and independent definitions of them; sorting up to ties |
| `protocol.dfy`, `protocol_spec.dfy`, `protocol_proof.dfy`, `protocol_laws.dfy`, `protocol_progress.dfy`, `protocol_solo.dfy` | the transition system and mutual exclusion; the sequential meaning of a log of operations; the inductive invariant; safety; progress; calls that run alone |
| `server.dfy` | the guard and the server as objects |
| `dex_state.dfy`, `dex_ledger.dfy`, `dex_app.dfy` | the DEX as a pure fold; the heap ledger that refines it; the application object |
| `dex_meaning.dfy` | what transactions and blocks do, in terms of what can be read before and after |
| `dex_laws.dfy`, `dex_blocks.dfy`, `dex_reachable.dfy`, `dex_format.dfy` | conservation; failing transactions; reachable states; transaction format |
| `dex_oracle.dfy`, `dex_oracle_laws.dfy`, `dex_oracle_meaning.dfy` | aggregation, its laws, and what it computes from the submitted lists |
| `dex_proposal.dfy`, `dex_proposal_laws.dfy` | proposals, their size, and what they contain |
| `dex_snapshot.dfy`, `dex_snapshot_laws.dfy`, `dex_bootstrap.dfy` | state sync, its laws, and state sync between two application objects |
| `dex_protocol.dfy`, `counter.dfy` | the two applications under the protocol |
| `dex_server.dfy` | the heap application driven through any list of calls |

`dafny verify dfyconfig.toml` checks everything.

## Environment

- sha256 and JSON are functions in a parameter, `DexState.Codecs`. A lemma that needs them to behave
  requires `StateCodec` or `PriceCodec`: decoding undoes encoding when all strings are UTF-8, what
  decodes has only UTF-8 strings, and empty input is not JSON. Denoms and pairs in transactions are
  arbitrary bytes, so these requirements are stated and `DexReachable` says when they are met. Of
  sha256, only `ImportRestores` requires anything, for the one pair of byte strings it compares.
- The engine's contract (`bapi.go:19-23`) is `Protocol.Obeys`: sequential calls start only once a
  handshake has completed. Mutual exclusion is proved without it; `ContractIsNeeded` and
  `AlternationNeedsContract` show what happens to the word and to alternation without it.
- A nil and an empty order slice are kept apart (`ordersNil`), because they differ in JSON and
  `clone` turns one into the other.

## What turned out to be false

- Exact conservation fails when a deposit wraps a balance around (`FundsCanVanish`); `Conservation`
  says that it holds exactly when none does.
- A withdrawal does not always undo a deposit: a limit order that takes a whole balance keeps the
  denom with balance zero, while a withdrawal deletes it (`LimitOrderSpoilsUndo`), and a deposit
  may wrap (`OverflowSpoilsUndo`). `WithdrawUndoesDeposit` has the condition.
- `BuildProposal` exceeds `MaxTxBytes` on some mempool when the limit plus a transaction's length
  wraps, unless no mempool is long enough to get there, which depends on whether an oracle
  transaction is injected (`WrapOverfills`); `SizeLimitExact` has the condition.
- `ExportSnapshot` exports nothing, or only a part, above 2^32 - 65536 bytes; `ExportComplete`
  and `ImportRestores` have the condition.
- A retry list is empty when more chunks than announced arrive and none is missing
  (`StrayChunkEmptiesRetry`, `EmptyRetry`); `RetryIsExact` says when.
- `Handshake` moves the word to Ready before the application has answered, so an engine that does
  not wait can see Init come back during an execution (`ContractIsNeeded`) and a block executed
  without a handshake (`AlternationNeedsContract`).

Where documentation and code differ the model follows the code: `ARCHITECTURE.md:37` allows `Query`
only in the ready state, `server/server.go:111-114` allows it at any time after the handshake;
`server/state_machine.go:55-56` says that seqMu also covers BuildProposal and VerifyProposal,
`server/server.go:125-139` does not take it.

## Model

| member | source | states |
|---|---|---|
| `Protocol.LocksAlways` | server/state_machine.go:97-133 | Each mutex is owned exactly by the thread that stands in its critical section, after any number of steps of any number of threads |
| `Protocol.MutualExclusion` | server/state_machine.go:97-133 | At most one thread is between the lock of seqMu and its unlock in ExecuteBlock or Commit, and at most one holds mu, in every interleaving and without any assumption on the engine |
| `ProtocolProof.InvStep` | server/state_machine.go:77-139 | The inductive invariant: every step that the engine contract allows keeps memory in agreement with the log of completed operations, including the windows between a store to the word and the unlock |
| `ProtocolProof.InvAlways` | server/server.go:51-108 | The invariant holds after every run in which sequential calls start only after a completed handshake |
| `ProtocolSpec.ApplyConsistent` | server/server.go:78-108 | One completed operation keeps the abstract server consistent: committed memory is the fold of the committed blocks, reported outcomes are those of that fold, an outcome is held exactly in Executed |
| `ProtocolSpec.LegalLogsAlternate` | bapi.go:19-23 | A legal log is failed handshakes, one handshake, then a prefix of (failed Execute* successful Execute, Commit)*, and determines the lifecycle word |
| `ProtocolLaws.OperationsAlternate` | bapi.go:19-23 | The completed operations of every run under the engine contract have that shape |
| `ProtocolLaws.NeverInitAgain` | server/state_machine.go:77-92 | After a completed handshake the word is never Init again and the flag stays set |
| `ProtocolLaws.FieldsAgreeWithGuard` | server/server.go:78-108 | At every interleaving, Executed means that lastOutcome, lastExecHeight and the staging area are those of the latest successful ExecuteBlock; Ready and Init mean that no outcome is held, also after failed executes and commits |
| `ProtocolLaws.LiveIsFold` | server/server.go:97-114 | The memory that a query reads is the fold of the installed blocks, at every interleaving, also while a block executes or commits |
| `ProtocolLaws.CommittedOutcomes` | server/server.go:78-108 | What ExecuteBlock reported for the committed blocks are the outcomes of executing them one after the other |
| `ProtocolLaws.CommitNeverPanics` | server/server.go:97-108 | The application never gets a Commit that it cannot perform |
| `ProtocolLaws.RejectedSeesSettled` | server/state_machine.go:97-126 | In every reachable configuration a call that is being turned away holds seqMu over memory that is exactly what the log says, the word names no operation in progress and is not the one the call needs, and its release leaves memory so |
| `ProtocolLaws.LateHandshakeRejected` | server/state_machine.go:75-82 | A second handshake panics without effect |
| `ProtocolLaws.ContractIsNeeded` | server/state_machine.go:75-92 | For every application a run that violates the contract: a failing handshake puts the word back to Init while another thread executes a block |
| `ProtocolLaws.AlternationNeedsContract` | bapi.go:19-23 | For every application that run goes on to a log that executes a block although no handshake succeeded: alternation fails without the contract |
| `ProtocolProgress.SomeThreadMoves` | server/server.go:77-108 | In every reachable configuration with a call in progress some thread can move: seqMu and mu never deadlock |
| `ProtocolProgress.SchedulesAreFinite` | server/server.go:49-114 | Without new calls no schedule, fair or not, is longer than the steps that the calls in progress have to go |
| `ProtocolProgress.CallsComplete` | server/server.go:49-114 | From every reachable configuration all calls in progress can be brought to their end, with both mutexes free and the word at rest |
| `ProtocolSolo.SoloHandshake` | server/server.go:51-68 | A handshake alone, with capabilities that are implemented, completes and records exactly those |
| `ProtocolSolo.SoloHandshakeFails` | server/server.go:54-63 | With any other answer it leaves everything as it was |
| `ProtocolSolo.SoloExecute` | server/server.go:78-94 | An execute alone ends in Executed with the outcome, the height and what the application staged, and leaves committed memory |
| `ProtocolSolo.SoloExecuteFails` | server/server.go:81-85 | With an error of the application it leaves everything as it was |
| `ProtocolSolo.SoloCommit` | server/server.go:97-108 | A commit alone installs what the application returns, or nothing on an error, clears the outcome and ends in Ready |
| `ProtocolSolo.CapsAreDeclared` | server/server.go:58-66 | After a handshake the recorded capabilities are those of a completed handshake in the log |
| `ProtocolSolo.InstalledInLog` | server/server.go:78-108 | The installed blocks are those that the log shows executed directly before a successful commit, and their reported outcomes are the ones logged there |
| `Server.LifecycleGuard.AcquireHandshake` | server/state_machine.go:75-82 | Swaps Init to Ready, or reports the panic and leaves the word |
| `Server.LifecycleGuard.AcquireExecute` | server/state_machine.go:94-104 | Waits while the mutex is held; else takes it and moves Ready to Executing, or gives it back and reports the panic |
| `Server.LifecycleGuard.CompleteExecute` | server/state_machine.go:106-110 | Moves to Executed and releases the mutex |
| `Server.LifecycleGuard.FailExecute` | server/state_machine.go:112-116 | Moves back to Ready and releases the mutex |
| `Server.LifecycleGuard.AcquireCommit` | server/state_machine.go:118-127 | Waits while the mutex is held; else takes it and moves Executed to Committing, or gives it back and reports the panic |
| `Server.LifecycleGuard.CompleteCommit` | server/state_machine.go:129-133 | Moves to Ready and releases the mutex |
| `Server.DiscoversExactly` | server/server.go:269-291 | The five checks accept a declaration exactly when every declared capability is implemented |
| `Server.Server.Handshake` | server/server.go:49-68 | Panics exactly outside Init; fails, repeatably and without effect, on an application error or an unimplemented capability; otherwise records exactly the declared capabilities and is Ready |
| `Server.Server.ExecuteBlock` | server/server.go:77-94 | Panics exactly outside Ready without effect; an application error leads back to Ready without effect; success records outcome, height and staging and leaves committed memory and capabilities |
| `Server.Server.Commit` | server/server.go:96-108 | Panics exactly outside Executed without effect; otherwise clears the outcome and returns to Ready even when the application fails; an application that panics, which one that accepts what it staged never does, leaves Committing and the held mutex |
| `Server.Server.Query` | server/server.go:110-114 | Reads committed memory, and panics before the first completed handshake |
| `Server.Server.Simulate` | server/server.go:182-190 | Reports a missing interface before it asks the guard |
| `Server.Server.LastOutcome` | server/server.go:258-264 | An outcome exactly in state Executed, that of the last completed operation |
| `Server.Server.As` | server/server.go:192-230 | After any calls an optional interface is handed out exactly when it was declared |
| `Server.Server.CallsRefineFold` | server/server.go:49-108 | Any sequence of calls on the server object alternates as the contract says, and its committed memory is the fold of the committed blocks |
| `DexProtocol.EveryRunRefinesFold` | example/dex/app.go:168-206 | The DEX under the server, every interleaving: the committed state is the fold of the committed blocks; something is staged in Executed and nothing in Init or Ready; the staged state is the next fold and the returned AppHash is its hash; Commit never meets a nil staged state |
| `DexProtocol.ServerRunsDex` | server/server.go:77-108 | The DEX on the server object, after any calls: committed state and reported outcomes are those of the committed blocks, something is staged exactly in Executed, and it is the fold with the executed block |
| `DexServer.Handle` | example/dex/app.go:168-256 | One request on the heap application behind the guard: it is admitted or turned away and answered as the pure run says, and memory follows |
| `DexServer.Serve` | example/dex/app.go:168-256 | The heap application and the guard through any list of executes, commits, queries and simulations: every answer is that of the pure run of the blocks committed so far, and the ledger holds their fold |
| `DexProtocol.EveryRunReportsRun` | example/dex/app.go:168-192 | The outcomes reported for the committed blocks are those of the pure run |
| `DexProtocol.EveryRunIsSound` | example/dex/app.go:565-698 | Whatever a query can see, at any interleaving, is a state of the reachable shape that conserves funds modulo 2^64 |
| `DexApp.App.ExecuteBlock` | example/dex/app.go:168-192 | Stages the fold of executeTx over the block and reports its outcomes, oracle events and AppHash; nothing reachable from the committed ledger is in its frame |
| `DexMeaning.BlockMeans` | example/dex/app.go:168-192 | The outcome of a block: for each transaction its outcome, with its index, on the state that its predecessors left; the events of the oracle updates in order; and the hash of the final state |
| `DexMeaning.BlockHeight` | example/dex/app.go:173-173 | The state after a block is at its height |
| `DexMeaning.AppHashBinds` | example/dex/app.go:96-100 | Equal AppHashes mean equal states, as long as the two encodings do not collide |
| `DexApp.App.Commit` | example/dex/app.go:194-206 | Installs exactly what was staged, empties the staging area, and retains 100 blocks |
| `DexApp.App.Simulate` | example/dex/app.go:529-536 | The outcome of the transaction on the committed state; no existing object changes |
| `DexApp.App.Query` | example/dex/app.go:208-256 | Answers each path from the committed state, with the height of every case |
| `DexApp.BalanceQueryExact` | example/dex/app.go:213-227 | A balance query for address and denom decodes to the balance the handlers keep |
| `DexApp.PriceQueryExact` | example/dex/app.go:229-241 | A price query finds exactly the pairs of the table and decodes to their prices |
| `DexApp.OrdersQueryExact` | example/dex/app.go:243-249 | An orders query answers the whole book at the committed height |
| `DexApp.QueryHeights` | example/dex/app.go:208-256 | Which queries are found, and the committed height in every reply but the one to a short balance query |
| `DexApp.App.ExtendVote` | example/dex/app.go:348-367 | Publishes the committed price table as a list in strictly increasing pair order, whatever the map iteration order |
| `DexApp.App.ExportSnapshot` | example/dex/app.go:417-460 | An export exactly for the supported format and the current height, of the committed state |
| `DexApp.App.ImportSnapshot` | example/dex/app.go:462-523 | Replaces the committed ledger, by a fresh object, exactly when the import succeeds; otherwise it stays the same object; the staged one is left alone |
| `DexLedger.CopyMap` | example/dex/app.go:83-93 | A fresh map object with the same entries, whatever the iteration order |
| `DexLedger.Ledger.Clone` | example/dex/app.go:76-94 | An equal state (a nil order slice becomes an empty one) whose footprint is entirely fresh: every inner denom map, the order storage and the prices |
| `DexLedger.Ledger.ExecuteDeposit` | example/dex/app.go:565-596 | The heap update refines the pure deposit, with a wrapping balance and the inner map made on demand |
| `DexLedger.Ledger.ExecuteWithdraw` | example/dex/app.go:598-641 | The heap update refines the pure withdrawal: error cases, and removal of the denom and of the address that became empty |
| `DexLedger.Ledger.ExecuteLimitOrder` | example/dex/app.go:643-698 | The heap update refines the pure limit order: funds are locked and the order is appended |
| `DexLedger.Ledger.ExecuteOracleUpdate` | example/dex/app.go:700-734 | The loop over the price list refines the pure update and collects the events of the usable entries |
| `DexLedger.Ledger.ExecuteTx` | example/dex/app.go:542-563 | Dispatch on the type byte refines the pure function in state, outcome and events |
| `DexMeaning.DepositMeans` | example/dex/app.go:565-596 | A deposit changes one balance, to the sum modulo 2^64, nothing else, and reports and emits exactly that |
| `DexMeaning.WithdrawMeans` | example/dex/app.go:598-641 | A covered withdrawal changes one balance, removes the entry exactly at zero, and the address with its last entry |
| `DexMeaning.LimitOrderMeans` | example/dex/app.go:643-698 | A covered order takes its amount off one balance, keeps the entry, appends itself, and reports its place in the book |
| `DexMeaning.FailureMeans` | example/dex/app.go:542-734 | Which transactions fail for their form, with which code and reason; a failure changes and emits nothing |
| `DexMeaning.ShortfallMeans` | example/dex/app.go:611-670 | What exceeds the balance fails with code 2, whatever else the ledger holds |
| `DexMeaning.OracleUpdateMeans` | example/dex/app.go:700-734 | A well-formed update changes prices alone, and emits the same events for itself and the block |
| `DexMeaning.LastPriceWins` | example/dex/app.go:714-719 | The last usable entry of a pair is its price afterwards |
| `DexMeaning.OtherPricesStay` | example/dex/app.go:714-719 | A pair without a usable entry keeps its price, or has none |
| `DexLedger.Ledger.AppendOrder` | example/dex/app.go:676-682 | Appending to the order slice, in place or after growing it, extends the order list by one |
| `DexLedger.Ledger.RemoveEntry` | example/dex/app.go:620-626 | Deletes the denom, and the address with its last denom |
| `DexLaws.TxConserves` | example/dex/app.go:542-734 | One transaction changes balance plus locked funds of an owner by its deposit or withdrawal, less 2^64 when a deposit wraps |
| `DexLaws.Conservation` | example/dex/app.go:565-698 | Over every run from genesis, balance plus funds locked in orders of that base denom equals successful deposits minus successful withdrawals modulo 2^64, and exactly when no deposit wrapped the balance; none does while the deposits total less than 2^64 |
| `DexFormat.FundsCanVanish` | example/dex/app.go:578-581 | Two deposits whose sum wraps and that leave nothing: exact conservation fails |
| `DexFormat.WithdrawUndoesDeposit` | example/dex/app.go:565-641 | Withdrawing what was deposited restores the state exactly when the deposit does not wrap and the denom was not kept with balance zero |
| `DexFormat.OverflowSpoilsUndo` | example/dex/app.go:578-581 | A reachable state in which a deposit wraps and withdrawing it does not lead back |
| `DexFormat.LimitOrderSpoilsUndo` | example/dex/app.go:620-682 | After any limit order that takes a whole balance the denom stays at zero, and no deposit of it is undone by withdrawing it |
| `DexBlocks.OutcomeShape` | example/dex/app.go:178-191 | One outcome per transaction, indexed by position; the block events are those of the oracle transactions in order |
| `DexBlocks.FailuresAreInert` | example/dex/app.go:542-734 | A transaction list and the list without its failing transactions reach the same state and events, and the survivors differ only in their index |
| `DexBlocks.BlockWithoutFailures` | example/dex/app.go:168-192 | The same for a block, with its AppHash |
| `DexReachable.TxKeepsSound` | example/dex/app.go:542-734 | A transaction keeps: no empty denom map, no empty denom, no empty pair or zero price, no order of zero amount or price |
| `DexReachable.ReachableIsSound` | example/dex/app.go:168-206 | Every run from genesis reaches only such states |
| `DexReachable.TextRunsArePortable` | example/dex/app.go:565-734 | When the denoms and pairs of the transactions are UTF-8, so is every string of every reached state |
| `DexReachable.ReachablePricesUsable` | example/dex/app.go:700-734 | Every stored price of a reachable state has a non-empty UTF-8 pair and a positive value |
| `DexFormat.LedgerTxFields` | example/dex/app.go:570-572 | The handlers read back what DepositTx and WithdrawTx wrote |
| `DexFormat.LedgerTxOnto` | example/dex/app.go:818-836 | Every transaction with the full header is the encoding of its fields |
| `DexFormat.LimitOrderTxFields` | example/dex/app.go:648-653 | The handler reads back what LimitOrderTx wrote |
| `DexFormat.LimitOrderTxOnto` | example/dex/app.go:838-846 | Every limit order with the full header is the encoding of its fields |
| `DexFormat.LedgerTxLayout` | example/dex/app.go:818-836 | The bytes of a deposit and a withdrawal by position |
| `DexFormat.LimitOrderTxLayout` | example/dex/app.go:838-846 | The bytes of a limit order by position, the amount before the price |
| `DexFormat.CheckTxMeans` | example/dex/app.go:145-166 | What the mempool gate accepts, with priority and sender |
| `DexState.PairBase` | example/dex/app.go:802-811 | The longest prefix of the pair without a slash |
| `Encoding.HexInjective` | example/dex/app.go:792-794 | Different byte strings have different hexadecimal keys |
| `Encoding.GetPutUint64` | example/dex/app.go:796-800 | Reading eight big-endian bytes gives back the number written |
| `EncodingLaws.GetUint64Means` | example/dex/app.go:796-800 | The number read is the positional value of the first eight bytes, the first one most significant |
| `EncodingLaws.HexMeans` | example/dex/app.go:792-794 | The key of an address has two lower-case digits for each byte, the high one first |
| `EncodingLaws.AtMostMeans` | example/dex/app.go:356-359 | The sort order of pairs: the first difference decides, and a prefix comes first |
| `EncodingLaws.ValidUtf8Means` | example/dex/app.go:97-100 | The strings that JSON carries are exactly the encodings of texts of Unicode scalar values |
| `DexOracle.BuildOracleTx` | example/dex/app.go:740-786 | The built transaction is a function of the extensions: for every map iteration order and every, possibly unstable, sort |
| `DexOracleMeaning.TableMeans` | example/dex/app.go:765-771 | The aggregate of a pair is the upper middle one of the prices that the extensions list for it, in ascending order, each as often as it is listed |
| `DexOracleMeaning.TablePairs` | example/dex/app.go:747-759 | Its pairs are exactly those with a listed price |
| `DexOracleMeaning.OracleTxMeans` | example/dex/app.go:761-786 | No transaction exactly when no price is listed; else the type byte and the JSON of one entry for each pair of the aggregate in strictly increasing order |
| `DexOracleMeaning.ExtensionVerdict` | example/dex/app.go:369-384 | Which extensions are accepted and refused |
| `DexOracleMeaning.NamelessEntryRefused` | example/dex/app.go:378-382 | An extension that lists an entry without a pair is refused |
| `DexOracle.MedianOf` | example/dex/app.go:765-769 | The median does not depend on the sort |
| `DexOracle.ListingIsStrict` | example/dex/app.go:770-774 | The aggregated list holds each pair once, in strictly increasing order |
| `DexOracleLaws.OracleTxOrderIndependent` | example/dex/app.go:743-786 | Permuting the vote extensions does not change the transaction |
| `DexOracleLaws.TableExactly` | example/dex/app.go:747-771 | A pair is aggregated exactly when some well-formed extension has a usable price for it |
| `DexOracleLaws.TableOffered` | example/dex/app.go:755-771 | Every aggregated price was submitted for that pair by some extension, so it is positive |
| `DexOracleLaws.MedianRobust` | example/dex/app.go:765-769 | If more than half of the prices lie in an interval, the median does |
| `DexOracleLaws.AggregateRobust` | example/dex/app.go:743-786 | The same for every aggregated pair, over the entries collected for it |
| `DexOracleLaws.OracleFixedPoint` | example/dex/app.go:348-384 | When all extensions publish the same non-empty table, each passes VerifyExtension, the aggregate lists exactly that table, and executing it succeeds and changes nothing |
| `DexProposal.BuildProposal` | example/dex/app.go:262-294 | The loop computes the greedy proposal, in wrapping uint64 arithmetic |
| `DexProposalLaws.InjectionMeans` | example/dex/app.go:266-276 | With extensions at hand an aggregate that fits comes first; in every other case the proposal holds no oracle update |
| `DexProposalLaws.ProposalStep` | example/dex/app.go:278-291 | The next mempool transaction joins exactly when it is no oracle update and the wrapped size of the proposal so far with it is within the limit |
| `DexProposalLaws.ProposalVerdict` | example/dex/app.go:296-342 | Which proposals are refused |
| `DexProposal.ProposalShape` | example/dex/app.go:262-294 | An optional oracle transaction, then an order-preserving selection of the mempool without oracle updates |
| `DexProposal.ProposalBoundedAndMaximal` | example/dex/app.go:278-291 | When limit plus length does not wrap: the size is within MaxTxBytes and no omitted non-oracle transaction could be appended to the final proposal |
| `DexProposal.SizeLimitExact` | example/dex/app.go:262-294 | For any extensions, over all mempools within the lengths of Go slices, of transactions up to a given length: the limit holds for each exactly when limit plus length is below 2^64, or the length is at most 1, or it is 2 and less than two bytes are injected |
| `DexProposal.InjectedCounts` | example/dex/app.go:269-276 | Less than two bytes are injected exactly when no oracle transaction is |
| `DexProposal.WrapOverfills` | example/dex/app.go:278-291 | Otherwise a mempool that the pass takes up to 2^64 bytes in all, the injected ones included |
| `DexProposal.BuiltProposalVerifies` | example/dex/app.go:296-342 | VerifyProposal accepts every proposal that BuildProposal returns, for any mempool, limit and extensions on either side |
| `DexSnapshot.ExportChunks` | example/dex/app.go:433-457 | The uint32 loop emits the specified slices; no slice bound is ever out of range |
| `DexSnapshot.ChunkCountValue` | example/dex/app.go:434-434 | The chunk count is the ceiling up to 2^32 - 65536 bytes and zero above, below 2^32 |
| `DexSnapshot.SliceInRange` | example/dex/app.go:446-450 | No step of the slice bounds wraps, and they are those of consecutive 64 KiB slices |
| `DexSnapshotLaws.SlicesAre64K` | example/dex/app.go:390-391 | Each slice is 64 KiB long, the last one what remains |
| `DexSnapshot.ExportComplete` | example/dex/app.go:433-457 | The chunks make up the data exactly when it is at most 2^32 - 65536 bytes long |
| `DexSnapshot.CollectChunks` | example/dex/app.go:470-474 | The collected map is that of the deliveries, the latest one per index |
| `DexSnapshot.DecideImport` | example/dex/app.go:462-523 | Each verdict, and the state to install, as the specification decides them |
| `DexSnapshotLaws.RetryIsExact` | example/dex/app.go:476-488 | A retry lists exactly the absent indices in strictly increasing order; with fewer distinct chunks than announced the reply is a retry with a non-empty list |
| `DexSnapshotLaws.StrayChunkEmptiesRetry` | example/dex/app.go:476-488 | An honest delivery with one chunk beyond the announced ones is answered by a retry that lists nothing |
| `DexSnapshotLaws.ImportMeans` | example/dex/app.go:462-523 | The verdict of an import in every case: format, count, hash, decoding, and the state and hash of a success |
| `DexSnapshotLaws.LastDeliveryCounts` | example/dex/app.go:471-474 | Of several deliveries of an index the last one counts |
| `DexSnapshotLaws.OnlyDelivered` | example/dex/app.go:471-474 | What is received is exactly what was delivered |
| `DexSnapshotLaws.EmptyRetry` | example/dex/app.go:476-488 | The smallest such delivery: no chunk announced and one received |
| `DexSnapshotLaws.DeliveryAssembles` | example/dex/app.go:470-494 | An honest delivery in any order and with repeats counts all chunks and assembles the export |
| `DexSnapshotLaws.ImportRestores` | example/dex/app.go:417-523 | Importing an honest export gives ImportOK and the exported state exactly when the state is portable and its encoding is at most 2^32 - 65536 bytes long |
| `DexSnapshotLaws.DescribeMeans` | example/dex/app.go:433-443 | The descriptor of a state that exports completely: its height, the format, the ceiling of 64 KiB chunks, and the hash of its encoding |
| `DexSnapshotLaws.BootstrapFollowsPeer` | example/dex/app.go:417-523 | A node that imported the snapshot of a peer whose state is portable reports, for all later blocks, the outcomes and AppHashes of that peer, and reaches its states |
| `DexSnapshotLaws.BootstrapOnText` | example/dex/app.go:417-523 | So it does when all denoms and pairs of the peer's blocks are UTF-8 |
| `DexBootstrap.Transfer` | example/dex/app.go:417-523 | Between two application objects: export, delivery in any order with repeats, and import make the committed states equal and leave the staged ones alone |
| `DexBootstrap.Follow` | example/dex/app.go:168-206 | Then both run the same blocks, and report the same outcomes and AppHashes and hold the same state |
| `DexBootstrap.ExportDelivers` | example/dex/app.go:445-457 | The chunks as exported are such a delivery |
| `Counter.CounterApp.ExecuteBlock` | example/counter/app.go:78-126 | The loop of wrapping additions stages the wrapped unbounded sum and reports each prefix sum |
| `Counter.CounterApp.Query` | example/counter/app.go:139-152 | Eight bytes that decode to the committed count |
| `Counter.IncrementTxExactly` | example/counter/app.go:161-180 | The valid transactions are exactly those that IncrementTx builds, and they read back |
| `Counter.CountIsSum` | example/counter/app.go:78-137 | After every committed run the count is the sum of all 8-byte transactions modulo 2^64, with its hash and the last height |
| `Counter.TotalMeans` | example/counter/app.go:83-99 | Exactly the 8-byte transactions add to the sum |
| `Counter.HashMeans` | example/counter/app.go:119-136 | The reported hash is that of the eight bytes of the count that the commit installs |
| `Counter.DataIsPrefixSum` | example/counter/app.go:98-117 | Each success decodes to the sum of the run up to and including it |
| `Counter.EveryRunCounts` | example/counter/app.go:78-137 | Under the server, at every interleaving, the committed count is that sum over the installed blocks, and in Executed the staged one includes the executed block |

## Left out

- `grpc/`, `local/`, `testing/`: transport, a forwarder and test helpers.
- `types/` beyond the fields the modelled code reads; `errors.go`: formatting and unwrapping.
- The capability bit mask is a set of capabilities; log warnings for undeclared interfaces are not modelled.
- The texts of `Info` and reject reasons, and the decimal text of event attributes: outcomes carry the values they are printed from.
- Context values, request fields that the applications ignore, and fairness of the mutexes.
- Critical sections under the applications' own RWMutex: reading the committed state, and executing or committing in the application, are one step each.
- A panic of the application inside ExecuteBlock, and an application call that never returns, either of which leaves seqMu held: no such step exists. A panic in Commit does.
- CheckTx, the mempool observer callbacks and the forwarding calls of `Server` other than Query and Simulate: each is a guard check or a nil check before a call.
- `Server.ImportSnapshot` is not an operation of the protocol: imports are proved on the application object and on blocks run after them, with nothing staged.
- DexApp.App.ImportSnapshot: requires `StateCodec`, so a foreign snapshot that decodes to something JSON cannot have written is not covered.
- Server.Server.Query: the application is a program over values in an `Application` object, for the DEX the one of `ServerRunsDex`; the heap DEX behind the guard is `DexServer.Serve`, without the server's own fields.
- DexProposal.BuiltProposalVerifies: VerifyProposal is otherwise not characterised, since with extensions at hand it accepts any list without an oracle transaction in front (`example/dex/app.go:306-310`).
- DexOracleLaws.MedianRobust: counts price entries and not validators, because one extension can list a pair several times.
- DexSnapshot.ExportChunks: the channel is a sequence of chunks, and a slice a copy of its bytes.
- DexLedger.Ledger.AppendOrder: the capacity that Go chooses when it grows a slice; the model takes twice the length plus one.
- Memory exhaustion: a list may be as long as `len` can say, and in most lemmas longer; `len` is exact, and conversions of it to uint32 and uint64 wrap.
