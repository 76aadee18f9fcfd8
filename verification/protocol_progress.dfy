/** Calls come to an end: no reachable configuration deadlocks, and without new calls every
    schedule is finite. */
module ProtocolProgress {
  import opened Encoding
  import opened Protocol
  import opened ProtocolSpec
  import opened ProtocolProof
  import opened ProtocolLaws

  // ----- No deadlock -----

  /** Who holds mu is never blocked, and who holds seqMu is blocked by mu at most. */
  lemma HolderMoves<L, G, B, O>(app: App<L, G, B, O>, sh: Shared<L, G, B, O>, t: Thread, pc: Pc<L, B, O>)
    requires !pc.CmPanicked?
    ensures HoldsMu(pc) ==> !Step(app, sh, t, pc, AppError).Blocked?
    ensures HoldsSeq(pc) && sh.mu == None ==> !Step(app, sh, t, pc, AppError).Blocked?
    ensures sh.seqMu == None && sh.mu == None ==> !Step(app, sh, t, pc, AppError).Blocked?
  {
    hide Logged, Pending;
  }

  /** In every reachable configuration with a call in progress some thread can move. */
  lemma SomeThreadMoves<L(!new), G, B(!new), O>(app: App<L, G, B, O>, live: L, staged: G, c: Config<L, G, B, O>)
    returns (t: Thread)
    requires Safe(app) && Reachable(app, live, staged, c) && c.pcs != map[]
    ensures t in c.pcs && Next(app, c, Tick(t, AppError)).Some?
  {
    if c.sh.mu.Some? {
      t := c.sh.mu.value;
    } else if c.sh.seqMu.Some? {
      t := c.sh.seqMu.value;
    } else {
      t :| t in c.pcs;
    }
    assert Locks(c) by {
      ReachableInv(app, live, staged, c);
    }
    CommitNeverPanics(app, live, staged, c, t);
    hide Step, HoldsSeq, HoldsMu, Reachable, Safe;
    HolderMoves(app, c.sh, t, c.pcs[t]);
  }

  // ----- Every call ends -----

  /** How many steps a call has to go at most. */
  function Ahead<L, B, O>(pc: Pc<L, B, O>): nat {
    match pc
    case HsSwap => 4
    case HsApp => 3
    case HsCaps(_) => 2
    case HsFail => 1
    case HsDone(_) => 1
    case ExLock(_) => 11
    case ExLoad(_) => 10
    case ExStore(_) => 9
    case ExRead(_) => 8
    case ExRun(_, _) => 7
    case ExMuLock(_, _) => 6
    case ExOutcome(_, _) => 5
    case ExHeight(_, _) => 4
    case ExMuUnlock(_, _) => 3
    case ExDone(_, _) => 2
    case ExUndo(_) => 2
    case CmLock => 9
    case CmLoad => 8
    case CmStore => 7
    case CmApp => 6
    case CmMuLock(_) => 5
    case CmClear(_) => 4
    case CmMuUnlock(_) => 3
    case CmDone(_) => 2
    case CmPanicked => 0
    case SeqReject(_) => 1
    case SeqUnlock => 1
    case RdLoad => 2
    case RdRead => 1
    case LoLock => 3
    case LoRead => 2
    case LoUnlock => 1
  }

  lemma StepGoesAhead<L, G, B, O>(app: App<L, G, B, O>, sh: Shared<L, G, B, O>, t: Thread, pc: Pc<L, B, O>,
      answer: Answer)
    ensures var e := Step(app, sh, t, pc, answer);
            && (e.Goes? ==> Ahead(e.pc) < Ahead(pc))
            && (!e.Blocked? ==> Ahead(pc) > 0)
  {
    hide Logged, Pending;
  }

  /** The steps that all calls in progress have to go at most. */
  ghost function Work<L, B, O>(pcs: map<Thread, Pc<L, B, O>>): nat
    decreases |pcs|
  {
    if pcs == map[] then 0
    else
      var t :| t in pcs;
      Ahead(pcs[t]) + Work(pcs - {t})
  }

  /** In whatever order the threads are counted. */
  lemma {:induction false} WorkWithout<L, B, O>(pcs: map<Thread, Pc<L, B, O>>, t: Thread)
    requires t in pcs
    ensures Work(pcs) == Ahead(pcs[t]) + Work(pcs - {t})
    decreases |pcs|
  {
    hide Ahead;
    var u :| u in pcs && Work(pcs) == Ahead(pcs[u]) + Work(pcs - {u});
    if u != t {
      WorkWithout(pcs - {u}, t);
      WorkWithout(pcs - {t}, u);
      assert pcs - {u} - {t} == pcs - {t} - {u};
    }
  }

  /** Each step uses some of it up. */
  lemma TickReducesWork<L, G, B, O>(app: App<L, G, B, O>, c: Config<L, G, B, O>, t: Thread, answer: Answer)
    requires Next(app, c, Tick(t, answer)).Some?
    ensures Work(Next(app, c, Tick(t, answer)).value.pcs) < Work(c.pcs)
  {
    hide Step, Ahead;
    var d := Next(app, c, Tick(t, answer)).value;
    StepGoesAhead(app, c.sh, t, c.pcs[t], answer);
    WorkWithout(c.pcs, t);
    if t in d.pcs {
      WorkWithout(d.pcs, t);
      assert d.pcs - {t} == c.pcs - {t};
    }
  }

  predicate OnlyTicks<B>(actions: seq<Action<B>>) {
    forall i | 0 <= i < |actions| :: actions[i].Tick?
  }

  /** Without new calls no schedule, fair or not, runs longer than the work there is. */
  lemma {:induction false} SchedulesAreFinite<L, G, B, O>(app: App<L, G, B, O>, c: Config<L, G, B, O>,
      actions: seq<Action<B>>)
    requires OnlyTicks(actions) && Run(app, c, actions).Some?
    ensures |actions| + Work(Run(app, c, actions).value.pcs) <= Work(c.pcs)
  {
    hide Work, Next;
    if actions != [] {
      var n := |actions| - 1;
      SchedulesAreFinite(app, c, actions[..n]);
      var last := actions[n];
      TickReducesWork(app, Run(app, c, actions[..n]).value, last.t, last.answer);
    }
  }

  lemma ReachableStep<L, G, B(!new), O>(app: App<L, G, B, O>, live: L, staged: G, c: Config<L, G, B, O>, a: Action<B>)
    requires Reachable(app, live, staged, c) && Allowed(c, a) && Next(app, c, a).Some?
    ensures Reachable(app, live, staged, Next(app, c, a).value)
  {
    var c0 := Start<L, G, B, O>(live, staged);
    var actions: seq<Action<B>> :| Run(app, c0, actions) == Some(c) && Obeys(app, c0, actions);
    var longer := actions + [a];
    hide Next, Start;
    assert longer[..|actions|] == actions;
    assert Run(app, c0, longer) == Next(app, c, a) && Obeys(app, c0, longer);
  }

  /** From every reachable configuration all calls in progress can be brought to their end: if
      no new ones start, stepping whichever thread can move leads there. */
  lemma {:induction false} CallsComplete<L(!new), G, B(!new), O>(app: App<L, G, B, O>, live: L, staged: G,
      c: Config<L, G, B, O>)
    returns (d: Config<L, G, B, O>)
    requires Safe(app) && Reachable(app, live, staged, c)
    ensures Reachable(app, live, staged, d) && d.pcs == map[]
    ensures d.sh.seqMu == None && d.sh.mu == None && d.sh.word != Executing && d.sh.word != Committing
    decreases Work(c.pcs)
  {
    if c.pcs == map[] {
      d := c;
      NobodyInside(app, live, staged, c);
    } else {
      var t := SomeThreadMoves(app, live, staged, c);
      TickReducesWork(app, c, t, AppError);
      ReachableStep(app, live, staged, c, Tick(t, AppError));
      hide Reachable, Safe, Next;
      d := CallsComplete(app, live, staged, Next(app, c, Tick(t, AppError)).value);
    }
  }

  lemma NobodyInside<L(!new), G, B(!new), O>(app: App<L, G, B, O>, live: L, staged: G, c: Config<L, G, B, O>)
    requires Safe(app) && Reachable(app, live, staged, c) && c.pcs == map[]
    ensures c.sh.seqMu == None && c.sh.mu == None && c.sh.word != Executing && c.sh.word != Committing
  {
    ReachableInv(app, live, staged, c);
  }
}
