/** What a call does when no other is in progress, step by step to its end, and what the log of
    operations records. */
module ProtocolSolo {
  import opened Encoding
  import opened Protocol
  import opened ProtocolSpec
  import opened ProtocolProof
  import opened ProtocolLaws
  import opened ProtocolProgress

  // ----- One thread alone -----

  lemma Begins<L, G, B(!new), O>(app: App<L, G, B, O>, live: L, staged: G, sh: Shared<L, G, B, O>, op: Op<B>)
    requires Reachable(app, live, staged, Config(sh, map[]))
    requires op.ExecuteBlock? || op.Commit? ==> sh.done
    ensures Reachable(app, live, staged, Config(sh, map[0 := Entry(op)]))
  {
    hide Reachable;
    ReachableStep(app, live, staged, Config(sh, map[]), Call(0, op));
  }

  lemma MovesAlone<L, G, B(!new), O>(app: App<L, G, B, O>, live: L, staged: G, sh: Shared<L, G, B, O>, pc: Pc<L, B, O>,
      answer: Answer)
    requires Reachable(app, live, staged, Config(sh, map[0 := pc])) && Step(app, sh, 0, pc, answer).Goes?
    ensures var e := Step(app, sh, 0, pc, answer); Reachable(app, live, staged, Config(e.sh, map[0 := e.pc]))
  {
    hide Reachable, Step;
    var e := Step(app, sh, 0, pc, answer);
    ReachableStep(app, live, staged, Config(sh, map[0 := pc]), Tick(0, answer));
    assert map[0 := pc][0 := e.pc] == map[0 := e.pc];
  }

  lemma EndsAlone<L, G, B(!new), O>(app: App<L, G, B, O>, live: L, staged: G, sh: Shared<L, G, B, O>, pc: Pc<L, B, O>,
      answer: Answer)
    requires Reachable(app, live, staged, Config(sh, map[0 := pc])) && Step(app, sh, 0, pc, answer).Ends?
    ensures Reachable(app, live, staged, Config(Step(app, sh, 0, pc, answer).sh, map[]))
  {
    hide Reachable, Step;
    ReachableStep(app, live, staged, Config(sh, map[0 := pc]), Tick(0, answer));
    assert map[0 := pc] - {0} == map[];
  }

  // ----- Handshake -----

  /** A handshake with capabilities that the application implements completes and records them. */
  lemma SoloHandshake<L, G, B(!new), O>(app: App<L, G, B, O>, live: L, staged: G, sh: Shared<L, G, B, O>,
      declared: set<Capability>)
    requires Reachable(app, live, staged, Config(sh, map[])) && sh.word == Init && declared <= app.implements
    ensures Reachable(app, live, staged,
              Config(sh.(word := Ready, caps := declared, done := true, log := sh.log + [Shook(declared)]), map[]))
  {
    hide Reachable;
    var answer := Declares(declared);
    Begins(app, live, staged, sh, Handshake);
    MovesAlone(app, live, staged, sh, HsSwap, answer);
    var sh1 := sh.(word := Ready);
    MovesAlone(app, live, staged, sh1, HsApp, answer);
    MovesAlone(app, live, staged, sh1, HsCaps(declared), answer);
    EndsAlone(app, live, staged, sh1.(caps := declared), HsDone(declared), answer);
  }

  /** Any other answer leaves everything as it was, but for the log. */
  lemma SoloHandshakeFails<L, G, B(!new), O>(app: App<L, G, B, O>, live: L, staged: G, sh: Shared<L, G, B, O>,
      answer: Answer)
    requires Reachable(app, live, staged, Config(sh, map[])) && sh.word == Init
    requires answer.Declares? ==> !(answer.caps <= app.implements)
    ensures Reachable(app, live, staged, Config(sh.(log := sh.log + [ShakeFailed]), map[]))
  {
    hide Reachable;
    Begins(app, live, staged, sh, Handshake);
    MovesAlone(app, live, staged, sh, HsSwap, answer);
    MovesAlone(app, live, staged, sh.(word := Ready), HsApp, answer);
    EndsAlone(app, live, staged, sh.(word := Ready), HsFail, answer);
  }

  // ----- ExecuteBlock -----

  /** Up to the application's answer. */
  lemma SoloExecuting<L, G, B(!new), O>(app: App<L, G, B, O>, live: L, staged: G, sh: Shared<L, G, B, O>, b: B)
    requires Reachable(app, live, staged, Config(sh, map[]))
    requires sh.done && sh.word == Ready && sh.seqMu == None
    ensures Reachable(app, live, staged,
              Config(sh.(seqMu := Some(0), word := Executing), map[0 := ExRun(b, sh.live)]))
  {
    hide Reachable;
    Begins(app, live, staged, sh, ExecuteBlock(b));
    MovesAlone(app, live, staged, sh, ExLock(b), AppError);
    var sh1 := sh.(seqMu := Some(0));
    MovesAlone(app, live, staged, sh1, ExLoad(b), AppError);
    MovesAlone(app, live, staged, sh1, ExStore(b), AppError);
    MovesAlone(app, live, staged, sh1.(word := Executing), ExRead(b), AppError);
  }

  /** From the application's outcome to the unlock of mu. */
  lemma SoloRecording<L, G, B(!new), O>(app: App<L, G, B, O>, live: L, staged: G, sh: Shared<L, G, B, O>, b: B, o: O)
    requires Reachable(app, live, staged, Config(sh, map[0 := ExMuLock(b, o)])) && sh.mu == None
    ensures Reachable(app, live, staged,
              Config(sh.(lastOutcome := Some(o), lastHeight := app.heightOf(b)), map[0 := ExDone(b, o)]))
  {
    hide Reachable;
    MovesAlone(app, live, staged, sh, ExMuLock(b, o), AppError);
    var sh1 := sh.(mu := Some(0));
    MovesAlone(app, live, staged, sh1, ExOutcome(b, o), AppError);
    var sh2 := sh1.(lastOutcome := Some(o));
    MovesAlone(app, live, staged, sh2, ExHeight(b, o), AppError);
    MovesAlone(app, live, staged, sh2.(lastHeight := app.heightOf(b)), ExMuUnlock(b, o), AppError);
    assert sh2.(lastHeight := app.heightOf(b)).(mu := None) ==
           sh.(lastOutcome := Some(o), lastHeight := app.heightOf(b));
  }

  /** A block that the application executes ends in Executed with its outcome, its height and what
      the application staged; committed memory stays. */
  lemma SoloExecute<L, G, B(!new), O>(app: App<L, G, B, O>, live: L, staged: G, sh: Shared<L, G, B, O>, b: B)
    requires Reachable(app, live, staged, Config(sh, map[]))
    requires sh.done && sh.word == Ready && sh.seqMu == None && sh.mu == None
    requires app.execute(sh.live, b).Some?
    ensures var r := app.execute(sh.live, b).value;
            Reachable(app, live, staged,
              Config(sh.(word := Executed, lastOutcome := Some(r.outcome), lastHeight := app.heightOf(b),
                         staged := r.staged, log := sh.log + [ExecuteDone(b, r.outcome)]), map[]))
  {
    hide Reachable;
    var r := app.execute(sh.live, b).value;
    SoloExecuting(app, live, staged, sh, b);
    var sh1 := sh.(seqMu := Some(0), word := Executing);
    MovesAlone(app, live, staged, sh1, ExRun(b, sh.live), AppError);
    var sh2 := sh1.(staged := r.staged);
    SoloRecording(app, live, staged, sh2, b, r.outcome);
    var sh3 := sh2.(lastOutcome := Some(r.outcome), lastHeight := app.heightOf(b));
    MovesAlone(app, live, staged, sh3, ExDone(b, r.outcome), AppError);
    EndsAlone(app, live, staged, Logged(sh3.(word := Executed), ExecuteDone(b, r.outcome)), SeqUnlock, AppError);
  }

  /** A block that the application refuses leaves everything as it was, but for the log. */
  lemma SoloExecuteFails<L, G, B(!new), O>(app: App<L, G, B, O>, live: L, staged: G, sh: Shared<L, G, B, O>, b: B)
    requires Reachable(app, live, staged, Config(sh, map[]))
    requires sh.done && sh.word == Ready && sh.seqMu == None
    requires app.execute(sh.live, b).None?
    ensures Reachable(app, live, staged, Config(sh.(log := sh.log + [ExecuteFailed(b)]), map[]))
  {
    hide Reachable;
    SoloExecuting(app, live, staged, sh, b);
    var sh1 := sh.(seqMu := Some(0), word := Executing);
    MovesAlone(app, live, staged, sh1, ExRun(b, sh.live), AppError);
    MovesAlone(app, live, staged, sh1, ExUndo(b), AppError);
    EndsAlone(app, live, staged, Logged(sh1.(word := Ready), ExecuteFailed(b)), SeqUnlock, AppError);
  }

  // ----- Commit -----

  lemma SoloCommitting<L, G, B(!new), O>(app: App<L, G, B, O>, live: L, staged: G, sh: Shared<L, G, B, O>)
    requires Reachable(app, live, staged, Config(sh, map[]))
    requires sh.done && sh.word == Executed && sh.seqMu == None
    ensures Reachable(app, live, staged, Config(sh.(seqMu := Some(0), word := Committing), map[0 := CmApp]))
  {
    hide Reachable;
    Begins(app, live, staged, sh, Commit);
    MovesAlone(app, live, staged, sh, CmLock, AppError);
    var sh1 := sh.(seqMu := Some(0));
    MovesAlone(app, live, staged, sh1, CmLoad, AppError);
    MovesAlone(app, live, staged, sh1, CmStore, AppError);
  }

  /** From the application's answer to the unlock of mu. */
  lemma SoloErasing<L, G, B(!new), O>(app: App<L, G, B, O>, live: L, staged: G, sh: Shared<L, G, B, O>, ok: bool)
    requires Reachable(app, live, staged, Config(sh, map[0 := CmMuLock(ok)])) && sh.mu == None
    ensures Reachable(app, live, staged, Config(sh.(lastOutcome := None), map[0 := CmDone(ok)]))
  {
    hide Reachable;
    MovesAlone(app, live, staged, sh, CmMuLock(ok), AppError);
    var sh1 := sh.(mu := Some(0));
    MovesAlone(app, live, staged, sh1, CmClear(ok), AppError);
    MovesAlone(app, live, staged, sh1.(lastOutcome := None), CmMuUnlock(ok), AppError);
    assert sh1.(lastOutcome := None).(mu := None) == sh.(lastOutcome := None);
  }

  /** And from there to the end. */
  lemma SoloClearing<L, G, B(!new), O>(app: App<L, G, B, O>, live: L, staged: G, sh: Shared<L, G, B, O>, ok: bool)
    requires Reachable(app, live, staged, Config(sh, map[0 := CmMuLock(ok)])) && sh.mu == None
    ensures Reachable(app, live, staged,
              Config(sh.(seqMu := None, lastOutcome := None, word := Ready, log := sh.log + [CommitDone(ok)]), map[]))
  {
    hide Reachable;
    SoloErasing(app, live, staged, sh, ok);
    var sh2 := sh.(lastOutcome := None);
    MovesAlone(app, live, staged, sh2, CmDone(ok), AppError);
    EndsAlone(app, live, staged, Logged(sh2.(word := Ready), CommitDone(ok)), SeqUnlock, AppError);
  }

  /** A commit installs what the application returns, or nothing when it fails; in both cases the
      outcome is cleared and the word is Ready. */
  lemma SoloCommit<L, G, B(!new), O>(app: App<L, G, B, O>, live: L, staged: G, sh: Shared<L, G, B, O>)
    requires Reachable(app, live, staged, Config(sh, map[]))
    requires sh.done && sh.word == Executed && sh.seqMu == None && sh.mu == None
    requires !app.commit(sh.live, sh.staged).CommitPanics?
    ensures var r := app.commit(sh.live, sh.staged);
            var after := if r.Committed?
                         then sh.(live := r.live, staged := r.staged, installed := sh.installed + Pending(sh.log))
                         else sh;
            Reachable(app, live, staged,
              Config(after.(lastOutcome := None, word := Ready, log := sh.log + [CommitDone(r.Committed?)]), map[]))
  {
    hide Reachable;
    SoloCommitting(app, live, staged, sh);
    var sh1 := sh.(seqMu := Some(0), word := Committing);
    MovesAlone(app, live, staged, sh1, CmApp, AppError);
    match app.commit(sh.live, sh.staged)
    case Committed(l, g) =>
      SoloClearing(app, live, staged, sh1.(live := l, staged := g, installed := sh.installed + Pending(sh.log)), true);
    case CommitFailed =>
      SoloClearing(app, live, staged, sh1, false);
  }

  // ----- What the log records -----

  /** After a completed handshake the capabilities are those that it declared. */
  lemma {:induction false} CapsInLog<L, G, B, O>(app: App<L, G, B, O>, live: L, staged: G, log: seq<Event<B, O>>)
    requires var r := Replay(app, live, staged, log); r.Some? && r.value.word != Init
    ensures Shook(Replay(app, live, staged, log).value.caps) in log
  {
    var n := |log| - 1;
    assert log == log[..n] + [log[n]];
    if !log[n].Shook? {
      CapsInLog(app, live, staged, log[..n]);
    }
  }

  lemma CapsAreDeclared<L(!new), G, B(!new), O>(app: App<L, G, B, O>, live: L, staged: G, c: Config<L, G, B, O>)
    requires Safe(app) && Reachable(app, live, staged, c) && c.sh.done
    ensures Shook(c.sh.caps) in c.sh.log && c.sh.caps <= app.implements
  {
    ReachableInv(app, live, staged, c);
    hide Reachable, Safe;
    CapsInLog(app, live, staged, c.sh.log);
  }

  /** The blocks whose execution the log shows directly before a successful commit. */
  function CommittedBlocks<B, O>(log: seq<Event<B, O>>): seq<B> {
    if |log| < 2 then []
    else
      var n := |log| - 1;
      CommittedBlocks(log[..n])
      + if log[n].CommitDone? && log[n].ok && log[n - 1].ExecuteDone? then [log[n - 1].b] else []
  }

  function CommittedReports<B, O>(log: seq<Event<B, O>>): seq<O> {
    if |log| < 2 then []
    else
      var n := |log| - 1;
      CommittedReports(log[..n])
      + if log[n].CommitDone? && log[n].ok && log[n - 1].ExecuteDone? then [log[n - 1].o] else []
  }

  lemma {:induction false} CommittedInLog<L, G, B, O>(app: App<L, G, B, O>, live: L, staged: G, log: seq<Event<B, O>>)
    requires Replay(app, live, staged, log).Some?
    ensures var a := Replay(app, live, staged, log).value;
            a.committed == CommittedBlocks(log) && a.outcomes == CommittedReports(log)
  {
    if log != [] {
      var n := |log| - 1;
      CommittedInLog(app, live, staged, log[..n]);
      if log[n].CommitDone? {
        ReplayLast(app, live, staged, log[..n]);
      } else {
        assert CommittedBlocks(log[..n]) + [] == CommittedBlocks(log[..n]);
        assert CommittedReports(log[..n]) + [] == CommittedReports(log[..n]);
      }
    }
  }

  /** Whenever no sequential call is inside, exactly those blocks are installed. */
  lemma InstalledInLog<L(!new), G, B(!new), O>(app: App<L, G, B, O>, live: L, staged: G, c: Config<L, G, B, O>)
    requires Safe(app) && Reachable(app, live, staged, c) && c.sh.seqMu == None
    ensures c.sh.installed == CommittedBlocks(c.sh.log)
    ensures Reported(app, live, CommittedBlocks(c.sh.log), CommittedReports(c.sh.log))
  {
    hide Reported;
    CommittedOutcomes(app, live, staged, c);
    CommittedInLog(app, live, staged, c.sh.log);
  }
}
