/** Under the engine contract every interleaving agrees with the log of completed operations. */
module ProtocolProof {
  import opened Encoding
  import opened Protocol
  import opened ProtocolSpec

  /** An application whose commit accepts what its execute staged. */
  ghost predicate Safe<L(!new), G, B(!new), O>(app: App<L, G, B, O>) {
    forall l, b :: app.execute(l, b).Some? ==> !app.commit(l, app.execute(l, b).value.staged).CommitPanics?
  }

  // ----- What a thread's place says about the shared memory -----

  predicate Shaking<L, B, O>(pc: Pc<L, B, O>) { pc.HsApp? || pc.HsFail? || pc.HsCaps? || pc.HsDone? }

  /** The thread is in a sequential call, waiting for seqMu or holding it. */
  predicate Sequential<L, B, O>(pc: Pc<L, B, O>) { HoldsSeq(pc) || pc.ExLock? || pc.CmLock? }

  /** Memory as after the log. */
  ghost predicate Settled<L, G, B, O>(sh: Shared<L, G, B, O>, a: Abs<L, G, B, O>) {
    && sh.word == a.word && sh.lastOutcome == a.lastOutcome && sh.lastHeight == a.lastHeight
    && sh.live == a.live && sh.staged == a.staged && sh.installed == a.committed
  }

  /** The owner of seqMu is between the word's store to Executing and the completing store. */
  ghost predicate WhileExecuting<L, G, B, O>(app: App<L, G, B, O>, sh: Shared<L, G, B, O>, a: Abs<L, G, B, O>,
      pc: Pc<L, B, O>)
  {
    && sh.word == Executing && a.word == Ready && sh.live == a.live && sh.installed == a.committed
    && match pc
       case ExRead(b) => sh.staged == a.staged && sh.lastOutcome == None && sh.lastHeight == a.lastHeight
       case ExRun(b, seen) => sh.staged == a.staged && sh.lastOutcome == None && sh.lastHeight == a.lastHeight
           && seen == a.live
       case ExUndo(b) => sh.staged == a.staged && sh.lastOutcome == None && sh.lastHeight == a.lastHeight
           && app.execute(a.live, b) == None
       case ExMuLock(b, o) => sh.lastOutcome == None && app.execute(a.live, b) == Some(Staged(sh.staged, o))
       case ExOutcome(b, o) => sh.lastOutcome == None && app.execute(a.live, b) == Some(Staged(sh.staged, o))
       case ExHeight(b, o) => sh.lastOutcome == Some(o) && app.execute(a.live, b) == Some(Staged(sh.staged, o))
       case ExMuUnlock(b, o) => sh.lastOutcome == Some(o) && sh.lastHeight == app.heightOf(b)
           && app.execute(a.live, b) == Some(Staged(sh.staged, o))
       case ExDone(b, o) => sh.lastOutcome == Some(o) && sh.lastHeight == app.heightOf(b)
           && app.execute(a.live, b) == Some(Staged(sh.staged, o))
       case _ => false
  }

  /** The commit has taken effect in the application, or failed there. */
  ghost predicate CommitTaken<L, G, B, O>(app: App<L, G, B, O>, sh: Shared<L, G, B, O>, a: Abs<L, G, B, O>, ok: bool) {
    if ok then
      app.commit(a.live, a.staged) == Committed(sh.live, sh.staged) && sh.installed == a.committed + a.pending
    else
      && app.commit(a.live, a.staged) == CommitFailed
      && sh.live == a.live && sh.staged == a.staged && sh.installed == a.committed
  }

  ghost predicate WhileCommitting<L, G, B, O>(app: App<L, G, B, O>, sh: Shared<L, G, B, O>, a: Abs<L, G, B, O>,
      pc: Pc<L, B, O>)
  {
    && sh.word == Committing && a.word == Executed && sh.lastHeight == a.lastHeight
    && match pc
       case CmApp => sh.live == a.live && sh.staged == a.staged && sh.installed == a.committed
           && sh.lastOutcome == a.lastOutcome
       case CmMuLock(ok) => CommitTaken(app, sh, a, ok)
       case CmClear(ok) => CommitTaken(app, sh, a, ok)
       case CmMuUnlock(ok) => CommitTaken(app, sh, a, ok) && sh.lastOutcome == None
       case CmDone(ok) => CommitTaken(app, sh, a, ok) && sh.lastOutcome == None
       case _ => false
  }

  ghost predicate OwnerAgrees<L, G, B, O>(app: App<L, G, B, O>, sh: Shared<L, G, B, O>, a: Abs<L, G, B, O>,
      pc: Pc<L, B, O>)
  {
    || (&& Settled(sh, a)
        && (pc.ExLoad? || pc.CmLoad? || pc.SeqUnlock?
            || (pc.SeqReject? && sh.word != pc.needed)
            || (pc.ExStore? && a.word == Ready) || (pc.CmStore? && a.word == Executed)))
    || WhileExecuting(app, sh, a, pc)
    || WhileCommitting(app, sh, a, pc)
  }

  /** A thread before any handshake has completed. */
  predicate EarlyThread<L, G, B, O>(app: App<L, G, B, O>, sh: Shared<L, G, B, O>, pc: Pc<L, B, O>) {
    && !Sequential(pc)
    && (Shaking(pc) ==> sh.word == Ready)
    && (pc.HsCaps? ==> pc.caps <= app.implements)
    && (pc.HsDone? ==> pc.caps == sh.caps <= app.implements)
  }

  /** Before a handshake completes no sequential call has started; the word is Ready at most
      while one thread is inside Handshake. */
  ghost predicate Early<L, G, B, O>(app: App<L, G, B, O>, c: Config<L, G, B, O>, a: Abs<L, G, B, O>) {
    && a.word == Init && c.sh.seqMu == None
    && (c.sh.word == Init || c.sh.word == Ready)
    && Settled(c.sh.(word := Init), a)
    && (forall t | t in c.pcs :: EarlyThread(app, c.sh, c.pcs[t]))
    && (forall t, u | t in c.pcs && u in c.pcs && Shaking(c.pcs[t]) && Shaking(c.pcs[u]) :: t == u)
  }

  /** Afterwards no thread is inside Handshake, and memory is what the log says, up to the
      operation in progress of the owner of seqMu. */
  ghost predicate Later<L, G, B, O>(app: App<L, G, B, O>, c: Config<L, G, B, O>, a: Abs<L, G, B, O>) {
    && a.word != Init && c.sh.caps == a.caps
    && (forall t | t in c.pcs :: !Shaking(c.pcs[t]))
    && (c.sh.seqMu == None ==> Settled(c.sh, a))
    && (forall t | t in c.pcs && HoldsSeq(c.pcs[t]) :: OwnerAgrees(app, c.sh, a, c.pcs[t]))
  }

  /** Shared memory against the abstract state a of the log. */
  ghost predicate Agrees<L, G, B, O>(app: App<L, G, B, O>, c: Config<L, G, B, O>, a: Abs<L, G, B, O>) {
    && a.pending == Pending(c.sh.log)
    && if c.sh.done then Later(app, c, a) else Early(app, c, a)
  }

  ghost predicate Inv<L, G, B, O>(app: App<L, G, B, O>, live: L, staged: G, c: Config<L, G, B, O>) {
    && Locks(c)
    && var r := Replay(app, live, staged, c.sh.log);
       r.Some? && Agrees(app, c, r.value)
  }

  // ----- Steps of a sequential call -----

  /** What a step leaves behind: the log is still legal, its state is a, and memory agrees with
      it up to where the stepping thread now stands. */
  ghost predicate Landed<L, G, B, O>(app: App<L, G, B, O>, live: L, staged: G, e: Effect<L, G, B, O>)
    requires !e.Blocked?
  {
    var r := Replay(app, live, staged, e.sh.log);
    && r.Some? && r.value.word != Init && e.sh.done
    && e.sh.caps == r.value.caps && r.value.pending == Pending(e.sh.log)
    && (if e.Goes? && HoldsSeq(e.pc) then OwnerAgrees(app, e.sh, r.value, e.pc) else Settled(e.sh, r.value))
  }

  /** Where a sequential step starts from. */
  ghost predicate Poised<L, G, B, O>(app: App<L, G, B, O>, live: L, staged: G, sh: Shared<L, G, B, O>,
      a: Abs<L, G, B, O>, pc: Pc<L, B, O>)
  {
    && Replay(app, live, staged, sh.log) == Some(a) && Consistent(app, live, a)
    && a.word != Init && sh.done && sh.caps == a.caps && a.pending == Pending(sh.log)
    && (if HoldsSeq(pc) then OwnerAgrees(app, sh, a, pc) else sh.seqMu == None ==> Settled(sh, a))
  }

  lemma OwnerPhase<L, G, B, O>(app: App<L, G, B, O>, sh: Shared<L, G, B, O>, a: Abs<L, G, B, O>, pc: Pc<L, B, O>)
    requires OwnerAgrees(app, sh, a, pc)
    ensures pc.ExMuLock? || pc.ExOutcome? || pc.ExHeight? || pc.ExMuUnlock? ==> WhileExecuting(app, sh, a, pc)
    ensures pc.CmStore? ==> Settled(sh, a) && a.word == Executed
    ensures pc.CmApp? || pc.CmMuLock? || pc.CmClear? || pc.CmMuUnlock? ==> WhileCommitting(app, sh, a, pc)
  {
  }

  lemma LockingStep<L, G, B, O>(app: App<L, G, B, O>, live: L, staged: G, sh: Shared<L, G, B, O>, a: Abs<L, G, B, O>,
      t: Thread, pc: Pc<L, B, O>, answer: Answer)
    requires Poised(app, live, staged, sh, a, pc)
    requires pc.ExLock? || pc.CmLock? || pc.ExLoad? || pc.CmLoad? || pc.SeqReject? || pc.SeqUnlock?
    requires !Step(app, sh, t, pc, answer).Blocked?
    ensures Landed(app, live, staged, Step(app, sh, t, pc, answer))
  {
    hide Consistent, Replay;
  }

  lemma NotCommitting<L, G, B, O>(app: App<L, G, B, O>, sh: Shared<L, G, B, O>, a: Abs<L, G, B, O>, pc: Pc<L, B, O>)
    requires OwnerAgrees(app, sh, a, pc) && (pc.ExStore? || pc.ExRead? || pc.ExRun?)
    ensures if pc.ExStore? then Settled(sh, a) && a.word == Ready else WhileExecuting(app, sh, a, pc)
  {
  }

  lemma ExecutingStep<L, G, B, O>(app: App<L, G, B, O>, live: L, staged: G, sh: Shared<L, G, B, O>,
      a: Abs<L, G, B, O>, t: Thread, pc: Pc<L, B, O>, answer: Answer)
    requires Poised(app, live, staged, sh, a, pc)
    requires pc.ExStore? || pc.ExRead? || pc.ExRun?
    ensures Landed(app, live, staged, Step(app, sh, t, pc, answer))
  {
    assert a.word == Ready && a.lastOutcome == None;
    hide Consistent, Replay, Pending;
    NotCommitting(app, sh, a, pc);
    hide WhileCommitting;
  }

  lemma RecordingStep<L, G, B, O>(app: App<L, G, B, O>, live: L, staged: G, sh: Shared<L, G, B, O>,
      a: Abs<L, G, B, O>, t: Thread, pc: Pc<L, B, O>, answer: Answer)
    requires Poised(app, live, staged, sh, a, pc)
    requires pc.ExMuLock? || pc.ExOutcome? || pc.ExHeight? || pc.ExMuUnlock?
    requires !Step(app, sh, t, pc, answer).Blocked?
    ensures Landed(app, live, staged, Step(app, sh, t, pc, answer))
  {
    hide Consistent, Replay, Pending, Settled, WhileCommitting;
    assert WhileExecuting(app, sh, a, pc) by {
      OwnerPhase(app, sh, a, pc);
    }
    var e := Step(app, sh, t, pc, answer);
    assert WhileExecuting(app, e.sh, a, e.pc);
  }

  lemma UndoneStep<L, G, B, O>(app: App<L, G, B, O>, live: L, staged: G, sh: Shared<L, G, B, O>, a: Abs<L, G, B, O>,
      t: Thread, pc: Pc<L, B, O>, answer: Answer)
    requires Poised(app, live, staged, sh, a, pc)
    requires pc.ExUndo?
    ensures Landed(app, live, staged, Step(app, sh, t, pc, answer))
  {
    assert a.lastOutcome == None && a.pending == [];
    hide Consistent, Replay, WhileCommitting;
    ReplayAppend(app, live, staged, sh.log, ExecuteFailed(pc.b));
  }

  lemma ExecutedStep<L, G, B, O>(app: App<L, G, B, O>, live: L, staged: G, sh: Shared<L, G, B, O>,
      a: Abs<L, G, B, O>, t: Thread, pc: Pc<L, B, O>, answer: Answer)
    requires Poised(app, live, staged, sh, a, pc)
    requires pc.ExDone?
    ensures Landed(app, live, staged, Step(app, sh, t, pc, answer))
  {
    assert a.lastOutcome == None && a.pending == [];
    hide Consistent, Replay, WhileCommitting;
    ReplayAppend(app, live, staged, sh.log, ExecuteDone(pc.b, pc.o));
  }

  lemma CommittingStep<L(!new), G, B(!new), O>(app: App<L, G, B, O>, live: L, staged: G, sh: Shared<L, G, B, O>,
      a: Abs<L, G, B, O>, t: Thread, pc: Pc<L, B, O>, answer: Answer)
    requires Safe(app) && Poised(app, live, staged, sh, a, pc)
    requires pc.CmStore? || pc.CmApp?
    ensures Landed(app, live, staged, Step(app, sh, t, pc, answer))
  {
    hide Replay, WhileExecuting;
    OwnerPhase(app, sh, a, pc);
    assert a.word == Executed && app.execute(a.live, a.pending[0]).Some?;
    hide Consistent;
    var e := Step(app, sh, t, pc, answer);
    assert WhileCommitting(app, e.sh, a, e.pc);
  }

  lemma ClearingStep<L, G, B, O>(app: App<L, G, B, O>, live: L, staged: G, sh: Shared<L, G, B, O>,
      a: Abs<L, G, B, O>, t: Thread, pc: Pc<L, B, O>, answer: Answer)
    requires Poised(app, live, staged, sh, a, pc)
    requires pc.CmMuLock? || pc.CmClear? || pc.CmMuUnlock?
    requires !Step(app, sh, t, pc, answer).Blocked?
    ensures Landed(app, live, staged, Step(app, sh, t, pc, answer))
  {
    hide Consistent, Replay, Pending, Settled, WhileExecuting;
    OwnerPhase(app, sh, a, pc);
    var e := Step(app, sh, t, pc, answer);
    assert WhileCommitting(app, e.sh, a, e.pc);
  }

  lemma CommittedStep<L, G, B, O>(app: App<L, G, B, O>, live: L, staged: G, sh: Shared<L, G, B, O>,
      a: Abs<L, G, B, O>, t: Thread, pc: Pc<L, B, O>, answer: Answer)
    requires Poised(app, live, staged, sh, a, pc) && pc.CmDone?
    ensures Landed(app, live, staged, Step(app, sh, t, pc, answer))
  {
    assert a.word == Executed && a.lastOutcome.Some?;
    hide Consistent, Replay;
    ReplayAppend(app, live, staged, sh.log, CommitDone(pc.ok));
  }

  lemma SequentialStep<L(!new), G, B(!new), O>(app: App<L, G, B, O>, live: L, staged: G, sh: Shared<L, G, B, O>,
      a: Abs<L, G, B, O>, t: Thread, pc: Pc<L, B, O>, answer: Answer)
    requires Safe(app) && Poised(app, live, staged, sh, a, pc) && Sequential(pc)
    requires !Step(app, sh, t, pc, answer).Blocked?
    ensures Landed(app, live, staged, Step(app, sh, t, pc, answer))
  {
    hide Safe, Poised, Landed, Step;
    if pc.ExLock? || pc.CmLock? || pc.ExLoad? || pc.CmLoad? || pc.SeqReject? || pc.SeqUnlock? {
      LockingStep(app, live, staged, sh, a, t, pc, answer);
    } else if pc.ExUndo? {
      UndoneStep(app, live, staged, sh, a, t, pc, answer);
    } else if pc.ExDone? {
      ExecutedStep(app, live, staged, sh, a, t, pc, answer);
    } else if pc.CmDone? {
      CommittedStep(app, live, staged, sh, a, t, pc, answer);
    } else if pc.CmStore? || pc.CmApp? {
      CommittingStep(app, live, staged, sh, a, t, pc, answer);
    } else if pc.CmMuLock? || pc.CmClear? || pc.CmMuUnlock? {
      ClearingStep(app, live, staged, sh, a, t, pc, answer);
    } else if pc.ExStore? || pc.ExRead? || pc.ExRun? {
      ExecutingStep(app, live, staged, sh, a, t, pc, answer);
    } else if pc.CmPanicked? {
      PanickedBlocks(app, sh, t, pc, answer);
    } else {
      RecordingStep(app, live, staged, sh, a, t, pc, answer);
    }
  }

  lemma PanickedBlocks<L, G, B, O>(app: App<L, G, B, O>, sh: Shared<L, G, B, O>, t: Thread, pc: Pc<L, B, O>,
      answer: Answer)
    requires pc.CmPanicked?
    ensures Step(app, sh, t, pc, answer).Blocked?
  {
  }

  // ----- Steps of a configuration -----

  /** The configuration after thread t's step. */
  ghost function Stepped<L, G, B, O>(c: Config<L, G, B, O>, t: Thread, e: Effect<L, G, B, O>): Config<L, G, B, O>
    requires !e.Blocked?
  {
    Config(e.sh, if e.Ends? then c.pcs - {t} else c.pcs[t := e.pc])
  }

  /** Where one thread has landed, the others fit in: only the owner of seqMu is bound. */
  lemma SequentialFrame<L, G, B, O>(app: App<L, G, B, O>, live: L, staged: G, c: Config<L, G, B, O>, t: Thread,
      e: Effect<L, G, B, O>)
    requires !e.Blocked? && Landed(app, live, staged, e) && Locks(Stepped(c, t, e))
    requires forall u | u in c.pcs :: !Shaking(c.pcs[u])
    requires if e.Goes? then HoldsSeq(e.pc) && !Shaking(e.pc) else e.sh.seqMu == None
    ensures Inv(app, live, staged, Stepped(c, t, e))
  {
    hide Replay, Settled, OwnerAgrees, Pending, HoldsSeq, Shaking, HoldsMu;
    var d := Stepped(c, t, e);
    assert forall u | u in d.pcs && u != t :: u in c.pcs && d.pcs[u] == c.pcs[u];
    assert forall u | u in d.pcs && HoldsSeq(d.pcs[u]) :: d.sh.seqMu == Some(u);
    assert e.Goes? ==> d.sh.seqMu == Some(t);
  }

  lemma SequentialTick<L(!new), G, B(!new), O>(app: App<L, G, B, O>, live: L, staged: G, c: Config<L, G, B, O>,
      t: Thread, answer: Answer)
    requires Safe(app) && Inv(app, live, staged, c) && Next(app, c, Tick(t, answer)).Some?
    requires Sequential(c.pcs[t])
    ensures Inv(app, live, staged, Next(app, c, Tick(t, answer)).value)
  {
    hide Step, Replay, Consistent, Safe, Settled, OwnerAgrees, Pending, HoldsSeq, Shaking, HoldsMu, Locks;
    var a := Replay(app, live, staged, c.sh.log).value;
    var e := Step(app, c.sh, t, c.pcs[t], answer);
    assert c.sh.done && Later(app, c, a) by {
      SequentialIsLater(app, c, a, t);
    }
    LocksStep(app, c, Tick(t, answer));
    ReplayConsistent(app, live, staged, c.sh.log);
    assert Poised(app, live, staged, c.sh, a, c.pcs[t]);
    hide Poised, Inv, Landed;
    SequentialStep(app, live, staged, c.sh, a, t, c.pcs[t], answer);
    SequentialKind(app, c.sh, t, c.pcs[t], answer);
    SequentialFrame(app, live, staged, c, t, e);
  }

  lemma SequentialIsLater<L, G, B, O>(app: App<L, G, B, O>, c: Config<L, G, B, O>, a: Abs<L, G, B, O>, t: Thread)
    requires Agrees(app, c, a) && t in c.pcs && Sequential(c.pcs[t])
    ensures c.sh.done && Later(app, c, a)
  {
  }

  /** A sequential call that moves on holds seqMu, and one that ends has released it. */
  lemma SequentialKind<L, G, B, O>(app: App<L, G, B, O>, sh: Shared<L, G, B, O>, t: Thread, pc: Pc<L, B, O>,
      answer: Answer)
    requires Sequential(pc)
    ensures var e := Step(app, sh, t, pc, answer);
            && (e.Goes? ==> HoldsSeq(e.pc) && !Shaking(e.pc))
            && (e.Ends? ==> e.sh.seqMu == None)
  {
    hide Logged, Pending;
  }

  /** After the handshake the word never is Init. */
  lemma WordNotInit<L, G, B, O>(app: App<L, G, B, O>, c: Config<L, G, B, O>, a: Abs<L, G, B, O>)
    requires Locks(c) && Agrees(app, c, a) && c.sh.done
    ensures c.sh.word != Init
  {
    if c.sh.seqMu.Some? {
      assert OwnerAgrees(app, c.sh, a, c.pcs[c.sh.seqMu.value]);
    }
  }

  /** What a step inside Handshake leaves behind. */
  ghost predicate Shaken<L, G, B, O>(app: App<L, G, B, O>, live: L, staged: G, sh: Shared<L, G, B, O>,
      pc: Pc<L, B, O>, e: Effect<L, G, B, O>)
  {
    && !e.Blocked? && e.sh.seqMu == sh.seqMu
    && (pc.HsSwap? && e.Ends? ==> e.sh == sh)
    && var r := Replay(app, live, staged, e.sh.log);
       && r.Some? && r.value.pending == Pending(e.sh.log)
       && (e.sh.done ==>
           && e.Ends? && Shaking(pc) && r.value.word == Ready && e.sh.caps == r.value.caps
           && Settled(e.sh, r.value))
       && (!e.sh.done ==>
           && r.value.word == Init && Settled(e.sh.(word := Init), r.value)
           && (e.sh.word == Init || e.sh.word == Ready)
           && (pc.HsSwap? && e.Goes? ==> sh.word == Init)
           && (e.Goes? ==> Shaking(e.pc) && EarlyThread(app, e.sh, e.pc)))
  }

  lemma ShakeGoes<L, G, B, O>(app: App<L, G, B, O>, live: L, staged: G, sh: Shared<L, G, B, O>, a: Abs<L, G, B, O>,
      t: Thread, pc: Pc<L, B, O>, answer: Answer)
    requires Replay(app, live, staged, sh.log) == Some(a) && a.pending == Pending(sh.log)
    requires a.word == Init && !sh.done && Settled(sh.(word := Init), a) && (sh.word == Init || sh.word == Ready)
    requires EarlyThread(app, sh, pc) && (pc.HsSwap? || pc.HsApp? || pc.HsCaps?)
    ensures Shaken(app, live, staged, sh, pc, Step(app, sh, t, pc, answer))
  {
    hide Replay, Pending;
  }

  lemma ShakeFails<L, G, B, O>(app: App<L, G, B, O>, live: L, staged: G, sh: Shared<L, G, B, O>, a: Abs<L, G, B, O>,
      t: Thread, pc: Pc<L, B, O>, answer: Answer)
    requires Replay(app, live, staged, sh.log) == Some(a) && a.word == Init && !sh.done
    requires Settled(sh.(word := Init), a) && a.pending == [] && EarlyThread(app, sh, pc) && pc.HsFail?
    ensures Shaken(app, live, staged, sh, pc, Step(app, sh, t, pc, answer))
  {
    hide Replay;
    ReplayAppend(app, live, staged, sh.log, ShakeFailed);
  }

  lemma ShakeCompletes<L, G, B, O>(app: App<L, G, B, O>, live: L, staged: G, sh: Shared<L, G, B, O>,
      a: Abs<L, G, B, O>, t: Thread, pc: Pc<L, B, O>, answer: Answer)
    requires Replay(app, live, staged, sh.log) == Some(a) && a.word == Init && !sh.done
    requires Settled(sh.(word := Init), a) && a.pending == [] && EarlyThread(app, sh, pc) && pc.HsDone?
    ensures Shaken(app, live, staged, sh, pc, Step(app, sh, t, pc, answer))
  {
    hide Replay;
    ReplayAppend(app, live, staged, sh.log, Shook(pc.caps));
  }

  /** What a step inside Handshake does before any handshake has completed. */
  lemma ShakeStep<L, G, B, O>(app: App<L, G, B, O>, live: L, staged: G, sh: Shared<L, G, B, O>, a: Abs<L, G, B, O>,
      t: Thread, pc: Pc<L, B, O>, answer: Answer)
    requires Replay(app, live, staged, sh.log) == Some(a) && a.pending == Pending(sh.log)
    requires a.word == Init && !sh.done && Settled(sh.(word := Init), a) && (sh.word == Init || sh.word == Ready)
    requires EarlyThread(app, sh, pc) && (pc.HsSwap? || Shaking(pc))
    ensures Shaken(app, live, staged, sh, pc, Step(app, sh, t, pc, answer))
  {
    hide Replay, Settled, EarlyThread, Pending, Shaken, Step;
    ReplayConsistent(app, live, staged, sh.log);
    assert a.pending == [];
    hide Consistent;
    if pc.HsFail? {
      ShakeFails(app, live, staged, sh, a, t, pc, answer);
    } else if pc.HsDone? {
      ShakeCompletes(app, live, staged, sh, a, t, pc, answer);
    } else {
      ShakeGoes(app, live, staged, sh, a, t, pc, answer);
    }
  }

  /** Among the others no thread is inside Handshake, unless shared memory stays as it is. */
  lemma HandshakeFrame<L, G, B, O>(app: App<L, G, B, O>, live: L, staged: G, c: Config<L, G, B, O>,
      a: Abs<L, G, B, O>, t: Thread, e: Effect<L, G, B, O>)
    requires t in c.pcs && (c.pcs[t].HsSwap? || Shaking(c.pcs[t])) && !c.sh.done && Early(app, c, a)
    requires Shaken(app, live, staged, c.sh, c.pcs[t], e) && Locks(Stepped(c, t, e))
    ensures Inv(app, live, staged, Stepped(c, t, e))
  {
    hide Replay, Settled, Locks, OwnerAgrees, Pending;
    var d := Stepped(c, t, e);
    forall u | u in d.pcs && u != t
      ensures u in c.pcs && d.pcs[u] == c.pcs[u] && !Sequential(d.pcs[u])
      ensures !Shaking(d.pcs[u]) || d.sh == c.sh
    {
    }
  }

  /** A handshake call before any handshake has completed. */
  lemma HandshakeTick<L, G, B, O>(app: App<L, G, B, O>, live: L, staged: G, c: Config<L, G, B, O>, t: Thread,
      answer: Answer)
    requires Inv(app, live, staged, c) && Next(app, c, Tick(t, answer)).Some? && !c.sh.done
    requires c.pcs[t].HsSwap? || Shaking(c.pcs[t])
    ensures Inv(app, live, staged, Next(app, c, Tick(t, answer)).value)
  {
    hide Step, Replay, Settled, Locks, OwnerAgrees, Pending, Shaken;
    var a := Replay(app, live, staged, c.sh.log).value;
    LocksStep(app, c, Tick(t, answer));
    ShakeStep(app, live, staged, c.sh, a, t, c.pcs[t], answer);
    hide Inv, EarlyThread;
    HandshakeFrame(app, live, staged, c, a, t, Step(app, c.sh, t, c.pcs[t], answer));
  }

  /** Changing mu binds nobody. */
  lemma QuietFrame<L, G, B, O>(app: App<L, G, B, O>, live: L, staged: G, c: Config<L, G, B, O>, t: Thread,
      e: Effect<L, G, B, O>)
    requires Inv(app, live, staged, c) && t in c.pcs && !e.Blocked? && e.sh == c.sh.(mu := e.sh.mu)
    requires Locks(Stepped(c, t, e)) && !HoldsSeq(c.pcs[t])
    requires e.Goes? ==> !Sequential(e.pc) && !Shaking(e.pc)
    ensures Inv(app, live, staged, Stepped(c, t, e))
  {
    hide Replay, HoldsMu;
    var d := Stepped(c, t, e);
    var a := Replay(app, live, staged, c.sh.log).value;
    assert forall u | u in d.pcs && u != t :: u in c.pcs && d.pcs[u] == c.pcs[u];
    forall u | u in d.pcs && HoldsSeq(d.pcs[u]) && d.sh.done ensures OwnerAgrees(app, d.sh, a, d.pcs[u]) {
      assert u != t && OwnerAgrees(app, c.sh, a, c.pcs[u]);
      MuIrrelevant(app, c.sh, d.sh, a, d.pcs[u]);
    }
    hide OwnerAgrees, HoldsSeq, Shaking;
  }

  /** A step outside the sequential calls and the handshake. */
  lemma QuietStep<L, G, B, O>(app: App<L, G, B, O>, sh: Shared<L, G, B, O>, t: Thread, pc: Pc<L, B, O>, answer: Answer)
    requires !Sequential(pc) && !Shaking(pc) && (pc.HsSwap? ==> sh.word != Init)
    ensures var e := Step(app, sh, t, pc, answer);
            !e.Blocked? ==> e.sh == sh.(mu := e.sh.mu) && (e.Goes? ==> !Sequential(e.pc) && !Shaking(e.pc))
  {
  }

  /** Steps that touch nothing but mu: queries, and a handshake that comes too late. */
  lemma QuietTick<L, G, B, O>(app: App<L, G, B, O>, live: L, staged: G, c: Config<L, G, B, O>, t: Thread,
      answer: Answer)
    requires Inv(app, live, staged, c) && Next(app, c, Tick(t, answer)).Some?
    requires !Sequential(c.pcs[t]) && !Shaking(c.pcs[t]) && (c.pcs[t].HsSwap? ==> c.sh.done)
    ensures Inv(app, live, staged, Next(app, c, Tick(t, answer)).value)
  {
    hide Step, Replay, Agrees, Locks, HoldsSeq, Shaking;
    LocksStep(app, c, Tick(t, answer));
    if c.sh.done {
      WordNotInit(app, c, Replay(app, live, staged, c.sh.log).value);
    }
    hide Inv;
    QuietStep(app, c.sh, t, c.pcs[t], answer);
    QuietFrame(app, live, staged, c, t, Step(app, c.sh, t, c.pcs[t], answer));
  }

  lemma MuIrrelevant<L, G, B, O>(app: App<L, G, B, O>, sh: Shared<L, G, B, O>, sh': Shared<L, G, B, O>,
      a: Abs<L, G, B, O>, pc: Pc<L, B, O>)
    requires sh' == sh.(mu := sh'.mu) && OwnerAgrees(app, sh, a, pc)
    ensures OwnerAgrees(app, sh', a, pc)
  {
  }

  /** How a call starts. */
  lemma EntryKind<L, G, B, O>(app: App<L, G, B, O>, sh: Shared<L, G, B, O>, op: Op<B>)
    ensures var pc: Pc<L, B, O> := Entry(op);
            && !HoldsSeq(pc) && !Shaking(pc)
            && (!op.ExecuteBlock? && !op.Commit? ==> EarlyThread(app, sh, pc))
  {
  }

  lemma CallKeepsInv<L, G, B, O>(app: App<L, G, B, O>, live: L, staged: G, c: Config<L, G, B, O>, t: Thread, op: Op<B>)
    requires Inv(app, live, staged, c) && Next(app, c, Call(t, op)).Some? && Allowed(c, Call(t, op))
    ensures Inv(app, live, staged, Next(app, c, Call(t, op)).value)
  {
    var d := Next(app, c, Call(t, op)).value;
    LocksStep(app, c, Call(t, op));
    EntryKind(app, c.sh, op);
    hide OwnerAgrees, Replay, Locks, Entry, HoldsSeq, Shaking, EarlyThread, Settled, Pending;
    assert forall u | u in d.pcs && u != t :: u in c.pcs && d.pcs[u] == c.pcs[u];
  }

  lemma InvStep<L(!new), G, B(!new), O>(app: App<L, G, B, O>, live: L, staged: G, c: Config<L, G, B, O>,
      action: Action<B>)
    requires Safe(app) && Inv(app, live, staged, c) && Next(app, c, action).Some? && Allowed(c, action)
    ensures Inv(app, live, staged, Next(app, c, action).value)
  {
    match action
    case Call(t, op) => CallKeepsInv(app, live, staged, c, t, op);
    case Tick(t, answer) =>
      var a := Replay(app, live, staged, c.sh.log).value;
      assert Agrees(app, c, a);
      if Sequential(c.pcs[t]) {
        SequentialTick(app, live, staged, c, t, answer);
      } else if !c.sh.done && (c.pcs[t].HsSwap? || Shaking(c.pcs[t])) {
        HandshakeTick(app, live, staged, c, t, answer);
      } else {
        QuietTick(app, live, staged, c, t, answer);
      }
  }

  lemma InvStart<L, G, B, O>(app: App<L, G, B, O>, live: L, staged: G)
    ensures Inv(app, live, staged, Start<L, G, B, O>(live, staged))
  {
  }

  lemma {:induction false} InvAlways<L(!new), G, B(!new), O>(app: App<L, G, B, O>, live: L, staged: G,
      actions: seq<Action<B>>)
    requires Safe(app)
    requires var c0 := Start<L, G, B, O>(live, staged); Run(app, c0, actions).Some? && Obeys(app, c0, actions)
    ensures Inv(app, live, staged, Run(app, Start<L, G, B, O>(live, staged), actions).value)
  {
    hide Inv, Safe, Next, Allowed;
    var c0 := Start<L, G, B, O>(live, staged);
    if actions == [] {
      InvStart(app, live, staged);
    } else {
      var n := |actions| - 1;
      InvAlways(app, live, staged, actions[..n]);
      InvStep(app, live, staged, Run(app, c0, actions[..n]).value, actions[n]);
    }
  }
}
