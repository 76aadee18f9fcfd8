/** What the lifecycle protocol guarantees in every run. */
module ProtocolLaws {
  import opened Encoding
  import opened Protocol
  import opened ProtocolSpec
  import opened ProtocolProof

  /** c is reached by some interleaving in which the engine obeys its contract. */
  ghost predicate Reachable<L, G, B(!new), O>(app: App<L, G, B, O>, live: L, staged: G, c: Config<L, G, B, O>) {
    exists actions: seq<Action<B>> ::
      Run(app, Start<L, G, B, O>(live, staged), actions) == Some(c)
          && Obeys(app, Start<L, G, B, O>(live, staged), actions)
  }

  lemma ReachableInv<L(!new), G, B(!new), O>(app: App<L, G, B, O>, live: L, staged: G, c: Config<L, G, B, O>)
    requires Safe(app) && Reachable(app, live, staged, c)
    ensures Inv(app, live, staged, c)
    ensures Consistent(app, live, Replay(app, live, staged, c.sh.log).value)
  {
    var actions: seq<Action<B>> :|
      Run(app, Start<L, G, B, O>(live, staged), actions) == Some(c)
          && Obeys(app, Start<L, G, B, O>(live, staged), actions);
    InvAlways(app, live, staged, actions);
    ReplayConsistent(app, live, staged, c.sh.log);
  }

  /** Completed operations form failed handshakes, a handshake, and then a prefix of
      (failed Execute* successful Execute, Commit)*, in every interleaving. */
  lemma OperationsAlternate<L(!new), G, B(!new), O>(app: App<L, G, B, O>, live: L, staged: G, c: Config<L, G, B, O>)
    requires Safe(app) && Reachable(app, live, staged, c)
    ensures LifecycleShape(c.sh.log)
  {
    ReachableInv(app, live, staged, c);
    LegalLogsAlternate(app, live, staged, c.sh.log);
  }

  lemma FlagStaysSet<L, G, B, O>(app: App<L, G, B, O>, c: Config<L, G, B, O>, a: Action<B>)
    requires c.sh.done && Next(app, c, a).Some?
    ensures Next(app, c, a).value.sh.done
  {
  }

  /** Once a handshake has completed, it stays so and the word never is Init again. */
  lemma NeverInitAgain<L(!new), G, B(!new), O>(app: App<L, G, B, O>, live: L, staged: G, c: Config<L, G, B, O>,
      a: Action<B>)
    requires Safe(app) && Reachable(app, live, staged, c) && c.sh.done
    ensures c.sh.word != Init
    ensures Next(app, c, a).Some? ==> Next(app, c, a).value.sh.done
  {
    hide Next, Safe, Replay, Agrees, Locks, Consistent;
    ReachableInv(app, live, staged, c);
    hide Reachable;
    WordNotInit(app, c, Replay(app, live, staged, c.sh.log).value);
    if Next(app, c, a).Some? {
      FlagStaysSet(app, c, a);
    }
  }

  lemma ReplayLast<L, G, B, O>(app: App<L, G, B, O>, live: L, staged: G, log: seq<Event<B, O>>)
    requires var r := Replay(app, live, staged, log); r.Some? && r.value.word == Executed
    ensures var a := Replay(app, live, staged, log).value;
            && log != [] && log[|log| - 1].ExecuteDone?
            && a.lastOutcome == Some(log[|log| - 1].o) && a.lastHeight == app.heightOf(log[|log| - 1].b)
            && a.pending == [log[|log| - 1].b]
  {
    LegalLogsAlternate(app, live, staged, log);
  }

  /** At every interleaving, in state Executed the server's fields and the staging area are those
      of the latest successful ExecuteBlock, run on the present committed memory; in states Init
      and Ready no outcome is held, whatever executes and commits have failed before. */
  lemma FieldsAgreeWithGuard<L(!new), G, B(!new), O>(app: App<L, G, B, O>, live: L, staged: G, c: Config<L, G, B, O>)
    requires Safe(app) && Reachable(app, live, staged, c)
    ensures c.sh.word == Executed ==>
              && c.sh.log != [] && var last := c.sh.log[|c.sh.log| - 1];
              && last.ExecuteDone? && c.sh.lastOutcome == Some(last.o) && c.sh.lastHeight == app.heightOf(last.b)
              && app.execute(c.sh.live, last.b) == Some(Staged(c.sh.staged, last.o))
    ensures c.sh.word == Ready || c.sh.word == Init ==> c.sh.lastOutcome == None
  {
    ReachableInv(app, live, staged, c);
    var a := Replay(app, live, staged, c.sh.log).value;
    WordDecides(app, c, a);
    if c.sh.word == Executed {
      ReplayLast(app, live, staged, c.sh.log);
    }
  }

  /** While the word is neither Executing nor Committing, memory is exactly what the log says,
      but for a handshake in progress. */
  lemma WordDecides<L, G, B, O>(app: App<L, G, B, O>, c: Config<L, G, B, O>, a: Abs<L, G, B, O>)
    requires Locks(c) && Agrees(app, c, a)
    ensures c.sh.word != Executing && c.sh.word != Committing ==> Settled(c.sh.(word := a.word), a)
    ensures c.sh.word == Executed ==> a.word == Executed
    ensures c.sh.word == Init || c.sh.word == Ready ==> a.word == Init || a.word == Ready
  {
    if c.sh.done && c.sh.seqMu.Some? {
      assert OwnerAgrees(app, c.sh, a, c.pcs[c.sh.seqMu.value]);
    }
  }

  /** The committed memory always is the fold of the installed blocks; what a query reads is
      therefore the state after committed blocks, also while a block executes. */
  lemma LiveIsFold<L(!new), G, B(!new), O>(app: App<L, G, B, O>, live: L, staged: G, c: Config<L, G, B, O>)
    requires Safe(app) && Reachable(app, live, staged, c)
    ensures c.sh.live == Fold(app, live, c.sh.installed)
  {
    ReachableInv(app, live, staged, c);
    var a := Replay(app, live, staged, c.sh.log).value;
    if c.sh.done && c.sh.seqMu.Some? {
      var pc := c.pcs[c.sh.seqMu.value];
      assert OwnerAgrees(app, c.sh, a, pc);
      if WhileCommitting(app, c.sh, a, pc) && c.sh.installed != a.committed {
        FoldAppend(app, live, a.committed, a.pending[0]);
        assert a.pending == [a.pending[0]];
      }
    }
  }

  /** The outcomes that ExecuteBlock returned for the committed blocks are those of executing
      them one after the other. */
  lemma CommittedOutcomes<L(!new), G, B(!new), O>(app: App<L, G, B, O>, live: L, staged: G, c: Config<L, G, B, O>)
    requires Safe(app) && Reachable(app, live, staged, c)
    ensures var r := Replay(app, live, staged, c.sh.log);
            && r.Some? && Reported(app, live, r.value.committed, r.value.outcomes)
            && (c.sh.seqMu == None ==> c.sh.installed == r.value.committed)
  {
    ReachableInv(app, live, staged, c);
    WordDecides(app, c, Replay(app, live, staged, c.sh.log).value);
  }

  /** The application never gets a Commit that it cannot perform. */
  lemma CommitNeverPanics<L(!new), G, B(!new), O>(app: App<L, G, B, O>, live: L, staged: G, c: Config<L, G, B, O>,
      t: Thread)
    requires Safe(app) && Reachable(app, live, staged, c) && t in c.pcs
    ensures !c.pcs[t].CmPanicked?
  {
    ReachableInv(app, live, staged, c);
    var a := Replay(app, live, staged, c.sh.log).value;
    assert HoldsSeq(c.pcs[t]) ==> OwnerAgrees(app, c.sh, a, c.pcs[t]);
  }

  // ----- Rejected calls -----

  /** The steps a call makes until it is admitted or has panicked. */
  predicate Knocking<L, B, O>(pc: Pc<L, B, O>) {
    pc.ExLock? || pc.ExLoad? || pc.CmLock? || pc.CmLoad? || pc.SeqReject? || pc.RdLoad?
  }

  /** Until a call is admitted, and when it panics, nothing but its hold on seqMu changes; it is
      turned away exactly when the word is not the one it needs. */
  lemma RejectionLeavesGuard<L, G, B, O>(app: App<L, G, B, O>, sh: Shared<L, G, B, O>, t: Thread, pc: Pc<L, B, O>,
      answer: Answer)
    requires Knocking(pc) && !Step(app, sh, t, pc, answer).Blocked?
    ensures var e := Step(app, sh, t, pc, answer);
            && e.sh == sh.(seqMu := e.sh.seqMu)
            && (pc.ExLoad? ==>
                e.Goes? && (e.pc.SeqReject? <==> sh.word != Ready) && (e.pc.ExStore? <==> sh.word == Ready))
            && (pc.CmLoad? ==>
                e.Goes? && (e.pc.SeqReject? <==> sh.word != Executed) && (e.pc.CmStore? <==> sh.word == Executed))
            && (pc.SeqReject? ==> e.Ends? && e.sh.seqMu == None)
            && (pc.RdLoad? ==> (e.Goes? <==> sh.done))
  {
  }

  /** A call that is being turned away holds seqMu over settled memory: the word names no
      operation in progress and is not the one the call needs, and releasing seqMu leaves
      everything as the log says. */
  lemma RejectedSeesSettled<L(!new), G, B(!new), O>(app: App<L, G, B, O>, live: L, staged: G, c: Config<L, G, B, O>,
      t: Thread, answer: Answer)
    requires Safe(app) && Reachable(app, live, staged, c) && t in c.pcs && c.pcs[t].SeqReject?
    ensures var r, d := Replay(app, live, staged, c.sh.log), Next(app, c, Tick(t, answer));
            && r.Some? && Settled(c.sh, r.value) && c.sh.seqMu == Some(t)
            && c.sh.word != c.pcs[t].needed && c.sh.word != Executing && c.sh.word != Committing
            && d == Some(Config(c.sh.(seqMu := None), c.pcs - {t}))
            && Settled(d.value.sh, r.value)
  {
    ReachableInv(app, live, staged, c);
    hide Reachable, Safe, Replay;
    var a := Replay(app, live, staged, c.sh.log).value;
    assert HoldsSeq(c.pcs[t]);
    assert OwnerAgrees(app, c.sh, a, c.pcs[t]);
    NotMidway(app, c.sh, a, c.pcs[t]);
  }

  lemma NotMidway<L, G, B, O>(app: App<L, G, B, O>, sh: Shared<L, G, B, O>, a: Abs<L, G, B, O>, pc: Pc<L, B, O>)
    requires OwnerAgrees(app, sh, a, pc) && pc.SeqReject?
    ensures Settled(sh, a) && sh.word != pc.needed
  {
  }

  lemma LateHandshakeRejected<L(!new), G, B(!new), O>(app: App<L, G, B, O>, live: L, staged: G,
      c: Config<L, G, B, O>, t: Thread, answer: Answer)
    requires Safe(app) && Reachable(app, live, staged, c) && c.sh.done && t in c.pcs && c.pcs[t].HsSwap?
    ensures Step(app, c.sh, t, c.pcs[t], answer) == Ends(c.sh)
  {
    ReachableInv(app, live, staged, c);
    WordNotInit(app, c, Replay(app, live, staged, c.sh.log).value);
  }

  // ----- Why the contract is needed -----

  lemma Extend<L, G, B, O>(app: App<L, G, B, O>, c0: Config<L, G, B, O>, c: Config<L, G, B, O>,
      actions: seq<Action<B>>, a: Action<B>)
    returns (d: Config<L, G, B, O>, longer: seq<Action<B>>)
    requires Run(app, c0, actions) == Some(c) && Next(app, c, a).Some?
    ensures Next(app, c, a) == Some(d) && Run(app, c0, longer) == Some(d)
  {
    d, longer := Next(app, c, a).value, actions + [a];
    assert longer[..|actions|] == actions;
  }

  /** Thread 1 waits for the application's answer; the word already is Ready. */
  lemma AnswerPending<L, G, B, O>(app: App<L, G, B, O>, live: L, staged: G)
    returns (c: Config<L, G, B, O>, actions: seq<Action<B>>)
    ensures Run(app, Start<L, G, B, O>(live, staged), actions) == Some(c)
    ensures c.sh == Start<L, G, B, O>(live, staged).sh.(word := Ready) && c.pcs.Keys == {1} && c.pcs[1] == HsApp
  {
    var c0 := Start<L, G, B, O>(live, staged);
    c, actions := Extend(app, c0, c0, [], Call(1, Handshake));
    c, actions := Extend(app, c0, c, actions, Tick(1, AppError));
  }

  /** Thread 2 gets into ExecuteBlock meanwhile. */
  lemma AdmittedEarly<L, G, B, O>(app: App<L, G, B, O>, live: L, staged: G, b: B)
    returns (c: Config<L, G, B, O>, actions: seq<Action<B>>)
    ensures Run(app, Start<L, G, B, O>(live, staged), actions) == Some(c)
    ensures c.pcs.Keys == {1, 2} && c.pcs[1] == HsApp && c.pcs[2] == ExRead(b)
    ensures c.sh == Start<L, G, B, O>(live, staged).sh.(word := Executing, seqMu := Some(2))
  {
    var c0 := Start<L, G, B, O>(live, staged);
    c, actions := AnswerPending(app, live, staged);
    hide Run;
    c, actions := Extend(app, c0, c, actions, Call(2, ExecuteBlock(b)));
    c, actions := Extend(app, c0, c, actions, Tick(2, AppError));
    c, actions := Extend(app, c0, c, actions, Tick(2, AppError));
    c, actions := Extend(app, c0, c, actions, Tick(2, AppError));
  }

  /** Handshake swaps the word to Ready before the application has answered. If the engine does
      not wait for the answer, ExecuteBlock is admitted, and a failing handshake then puts the
      word back to Init in the middle of the execution. */
  lemma ContractIsNeeded<L, G, B, O>(app: App<L, G, B, O>, live: L, staged: G, b: B)
    returns (c: Config<L, G, B, O>, actions: seq<Action<B>>)
    ensures Run(app, Start<L, G, B, O>(live, staged), actions) == Some(c)
    ensures c.sh.word == Init && !c.sh.done && c.pcs == map[2 := ExRead(b)]
    ensures c.sh.log == [ShakeFailed] && c.sh.live == live && c.sh.mu == None
  {
    var c0 := Start<L, G, B, O>(live, staged);
    c, actions := AdmittedEarly(app, live, staged, b);
    hide Run;
    c, actions := Extend(app, c0, c, actions, Tick(1, AppError));
    c, actions := Extend(app, c0, c, actions, Tick(1, AppError));
  }

  /** The step of the only thread. */
  lemma Move<L, G, B, O>(app: App<L, G, B, O>, c0: Config<L, G, B, O>, c: Config<L, G, B, O>,
      actions: seq<Action<B>>, pc: Pc<L, B, O>)
    returns (d: Config<L, G, B, O>, longer: seq<Action<B>>)
    requires Run(app, c0, actions) == Some(c) && c.pcs == map[2 := pc]
    requires Step(app, c.sh, 2, pc, AppError).Goes?
    ensures Run(app, c0, longer) == Some(d)
    ensures var e := Step(app, c.sh, 2, pc, AppError); d == Config(e.sh, map[2 := e.pc])
  {
    hide Step;
    d, longer := Extend(app, c0, c, actions, Tick(2, AppError));
  }

  lemma RanUnshaken<L, G, B, O>(app: App<L, G, B, O>, live: L, staged: G, b: B)
    returns (c: Config<L, G, B, O>, actions: seq<Action<B>>)
    requires app.execute(live, b).Some?
    ensures Run(app, Start<L, G, B, O>(live, staged), actions) == Some(c)
    ensures c.sh.log == [ShakeFailed] && c.pcs == map[2 := ExOutcome(b, app.execute(live, b).value.outcome)]
  {
    var c0 := Start<L, G, B, O>(live, staged);
    var o := app.execute(live, b).value.outcome;
    c, actions := ContractIsNeeded(app, live, staged, b);
    hide Run, Start;
    c, actions := Move(app, c0, c, actions, ExRead(b));
    c, actions := Move(app, c0, c, actions, ExRun(b, live));
    c, actions := Move(app, c0, c, actions, ExMuLock(b, o));
  }

  lemma RecordedUnshaken<L, G, B, O>(app: App<L, G, B, O>, live: L, staged: G, b: B)
    returns (c: Config<L, G, B, O>, actions: seq<Action<B>>)
    requires app.execute(live, b).Some?
    ensures Run(app, Start<L, G, B, O>(live, staged), actions) == Some(c)
    ensures c.sh.log == [ShakeFailed] && c.pcs == map[2 := ExMuUnlock(b, app.execute(live, b).value.outcome)]
  {
    var c0 := Start<L, G, B, O>(live, staged);
    var o := app.execute(live, b).value.outcome;
    c, actions := RanUnshaken(app, live, staged, b);
    hide Run, Start;
    c, actions := Move(app, c0, c, actions, ExOutcome(b, o));
    c, actions := Move(app, c0, c, actions, ExHeight(b, o));
  }

  /** The run goes on until the block is executed, without any handshake having completed. */
  lemma ExecutedUnshaken<L, G, B, O>(app: App<L, G, B, O>, live: L, staged: G, b: B)
    returns (c: Config<L, G, B, O>, actions: seq<Action<B>>)
    requires app.execute(live, b).Some?
    ensures Run(app, Start<L, G, B, O>(live, staged), actions) == Some(c)
    ensures c.sh.log == [ShakeFailed, ExecuteDone(b, app.execute(live, b).value.outcome)]
  {
    var c0 := Start<L, G, B, O>(live, staged);
    var o := app.execute(live, b).value.outcome;
    c, actions := RecordedUnshaken(app, live, staged, b);
    hide Run, Start;
    c, actions := Move(app, c0, c, actions, ExMuUnlock(b, o));
    c, actions := Move(app, c0, c, actions, ExDone(b, o));
  }

  lemma FailedUnshaken<L, G, B, O>(app: App<L, G, B, O>, live: L, staged: G, b: B)
    returns (c: Config<L, G, B, O>, actions: seq<Action<B>>)
    requires app.execute(live, b).None?
    ensures Run(app, Start<L, G, B, O>(live, staged), actions) == Some(c)
    ensures c.sh.log == [ShakeFailed, ExecuteFailed(b)]
  {
    var c0 := Start<L, G, B, O>(live, staged);
    c, actions := ContractIsNeeded(app, live, staged, b);
    hide Run, Start;
    c, actions := Move(app, c0, c, actions, ExRead(b));
    c, actions := Move(app, c0, c, actions, ExRun(b, live));
    c, actions := Move(app, c0, c, actions, ExUndo(b));
  }

  /** Alternation fails without the contract: every application has a run whose completed
      operations execute a block although no handshake succeeded. */
  lemma AlternationNeedsContract<L, G, B, O>(app: App<L, G, B, O>, live: L, staged: G, b: B)
    returns (c: Config<L, G, B, O>, actions: seq<Action<B>>)
    ensures Run(app, Start<L, G, B, O>(live, staged), actions) == Some(c)
    ensures !LifecycleShape(c.sh.log)
  {
    if app.execute(live, b).Some? {
      c, actions := ExecutedUnshaken(app, live, staged, b);
    } else {
      c, actions := FailedUnshaken(app, live, staged, b);
    }
    assert c.sh.log[1..][0] == c.sh.log[1];
  }
}
