/** The heap application behind the lifecycle guard: any list of calls answers as the pure run
    of the blocks committed so far. */
module DexServer {
  import opened Encoding
  import opened DexState
  import opened DexBlocks
  import opened DexApp
  import DexProtocol
  import opened Server
  import Protocol

  datatype Request = Execute(b: Block) | Persist | Ask(path: string, data: Bytes) | DryRun(tx: Bytes)

  datatype Answered =
    | TurnedAway
    | Done(o: BlockOutcome)
    | Persisted(retain: Uint64)
    | Told(r: QueryReply)
    | Tried(outcome: TxOutcome)

  /** The blocks committed so far, and the executed one that waits for its commit. */
  datatype Progress = Progress(committed: seq<Block>, pending: Option<Block>)

  function After(p: Progress, r: Request): Progress {
    match r
    case Execute(b) => if p.pending == None then p.(pending := Some(b)) else p
    case Persist => if p.pending.Some? then Progress(p.committed + [p.pending.value], None) else p
    case _ => p
  }

  function ProgressOf(rs: seq<Request>): Progress {
    if rs == [] then Progress([], None) else After(ProgressOf(rs[..|rs| - 1]), rs[|rs| - 1])
  }

  /** What a request is answered after a history, in terms of the pure run alone. */
  function Reaction(c: Codecs, p: Progress, r: Request): Answered {
    var s := RunBlocks(c, GENESIS, p.committed);
    match r
    case Execute(b) => if p.pending == None then Done(ExecBlock(c, s, b).outcome) else TurnedAway
    case Persist =>
      if p.pending == None then TurnedAway
      else
        var height := RunBlocks(c, GENESIS, p.committed + [p.pending.value]).height;
        Persisted(if height > 100 then height - 100 else 0)
    case Ask(path, data) => Told(Answer(c, s, path, data))
    case DryRun(tx) => Tried(ExecTx(c, s.(ordersNil := false), 0, tx).outcome)
  }

  /** The memory of the application and the guard, by the history. */
  ghost predicate Follows(c: Codecs, app: App, guard: LifecycleGuard, p: Progress)
    reads app, app.Repr, guard
  {
    && app.Valid() && guard !in app.Repr && app.codecs == c && !guard.seqMu && guard.handshakeDone
    && guard.state == (if p.pending == None then Protocol.Ready else Protocol.Executed)
    && app.Live() == RunBlocks(c, GENESIS, p.committed)
    && app.Staging() == if p.pending == None then None
                        else Some(RunBlocks(c, GENESIS, p.committed + [p.pending.value]))
  }

  method HandleExecute(c: Codecs, app: App, guard: LifecycleGuard, b: Block, ghost p: Progress)
    returns (a: Answered)
    requires Follows(c, app, guard, p)
    modifies app, app.Repr, guard
    ensures Follows(c, app, guard, After(p, Execute(b))) && fresh(app.Repr - old(app.Repr))
    ensures a == Reaction(c, p, Execute(b))
  {
    hide RunBlocks, RunOutcomes, ExecBlock, DexProtocol.Dex, App.Live;
    var entry := guard.AcquireExecute();
    if entry.Rejected? {
      return TurnedAway;
    }
    RunAppend(c, GENESIS, p.committed, b);
    var o := app.ExecuteBlock(b);
    guard.CompleteExecute();
    a := Done(o);
  }

  method HandlePersist(c: Codecs, app: App, guard: LifecycleGuard, ghost p: Progress) returns (a: Answered)
    requires Follows(c, app, guard, p)
    modifies app, app.Repr, guard
    ensures Follows(c, app, guard, After(p, Persist)) && fresh(app.Repr - old(app.Repr))
    ensures a == Reaction(c, p, Persist)
  {
    hide RunBlocks, DexProtocol.Dex, App.Live;
    var entry := guard.AcquireCommit();
    if entry.Rejected? {
      return TurnedAway;
    }
    var retain := app.Commit();
    guard.CompleteCommit();
    a := Persisted(retain);
  }

  method Handle(c: Codecs, app: App, guard: LifecycleGuard, r: Request, ghost p: Progress) returns (a: Answered)
    requires Follows(c, app, guard, p)
    modifies app, app.Repr, guard
    ensures Follows(c, app, guard, After(p, r)) && fresh(app.Repr - old(app.Repr))
    ensures a == Reaction(c, p, r)
  {
    hide RunBlocks, ExecBlock, Answer, ExecTx;
    match r
    case Execute(b) =>
      a := HandleExecute(c, app, guard, b, p);
    case Persist =>
      a := HandlePersist(c, app, guard, p);
    case Ask(path, data) =>
      var reply := app.Query(path, data);
      a := Told(reply);
    case DryRun(tx) =>
      var outcome := app.Simulate(tx);
      a := Tried(outcome);
  }

  /** A new application under a new guard, after its handshake. */
  method Boot(c: Codecs) returns (app: App, guard: LifecycleGuard)
    ensures Follows(c, app, guard, Progress([], None))
    ensures fresh(app) && fresh(app.Repr) && fresh(guard)
  {
    app := new App(c);
    guard := new LifecycleGuard();
    var acquired := guard.AcquireHandshake();
    guard.CompleteHandshake();
  }

  /** From a handshake through any list of requests: every answer is that of the pure run, and
      the ledger holds the fold of the committed blocks, whatever was executed, queried or turned
      away in between. */
  method Serve(c: Codecs, rs: seq<Request>) returns (app: App, guard: LifecycleGuard, answers: seq<Answered>)
    ensures Follows(c, app, guard, ProgressOf(rs))
    ensures |answers| == |rs|
    ensures forall i | 0 <= i < |rs| :: answers[i] == Reaction(c, ProgressOf(rs[..i]), rs[i])
  {
    hide Follows, Reaction, After;
    app, guard := Boot(c);
    answers := [];
    for i := 0 to |rs|
      invariant fresh(app) && fresh(app.Repr) && fresh(guard)
      invariant Follows(c, app, guard, ProgressOf(rs[..i]))
      invariant |answers| == i
      invariant forall j | 0 <= j < i :: answers[j] == Reaction(c, ProgressOf(rs[..j]), rs[j])
    {
      assert rs[..i + 1][..i] == rs[..i];
      var a := Handle(c, app, guard, rs[i], ProgressOf(rs[..i]));
      answers := answers + [a];
    }
    assert rs[..|rs|] == rs;
  }
}
