/** The lifecycle guard and the server around an application, as a transition system over any
    number of threads. Every compare-and-swap, load, store, lock and unlock is one step. */
module Protocol {
  import opened Encoding

  type Thread = nat

  /** The lifecycle word. */
  datatype Word = Init | Ready | Executing | Executed | Committing

  datatype Capability = ProposalControl | VoteExtensions | StateSync | Simulation | MempoolObserver

  datatype Staged<G, O> = Staged(staged: G, outcome: O)

  datatype CommitEffect<L, G> = Committed(live: L, staged: G) | CommitFailed | CommitPanics

  /** An application: L is its committed memory, G its staging area, B a block, O an outcome.
      An error of execute or commit leaves both as they were. */
  datatype App<!L, !G, !B, !O> = App(
    implements: set<Capability>,
    heightOf: B -> Uint64,
    execute: (L, B) -> Option<Staged<G, O>>,
    commit: (L, G) -> CommitEffect<L, G>)

  datatype Op<B> = Handshake | ExecuteBlock(block: B) | Commit | Read | LastOutcome

  /** Where a thread stands; the step it takes next. Idle threads have no entry. */
  datatype Pc<L, B, O> =
    | HsSwap
    | HsApp
    | HsFail
    | HsCaps(caps: set<Capability>)
    | HsDone(caps: set<Capability>)
    | ExLock(b: B)
    | ExLoad(b: B)
    | ExStore(b: B)
    | ExRead(b: B)
    | ExRun(b: B, seen: L)
    | ExUndo(b: B)
    | ExMuLock(b: B, o: O)
    | ExOutcome(b: B, o: O)
    | ExHeight(b: B, o: O)
    | ExMuUnlock(b: B, o: O)
    | ExDone(b: B, o: O)
    | CmLock
    | CmLoad
    | SeqReject(needed: Word)
    | CmStore
    | CmApp
    | CmMuLock(ok: bool)
    | CmClear(ok: bool)
    | CmMuUnlock(ok: bool)
    | CmDone(ok: bool)
    | CmPanicked
    | SeqUnlock
    | RdLoad
    | RdRead
    | LoLock
    | LoRead
    | LoUnlock

  /** Completed operations, in the order of their completing step. */
  datatype Event<B, O> =
    | ShakeFailed
    | Shook(caps: set<Capability>)
    | ExecuteFailed(b: B)
    | ExecuteDone(b: B, o: O)
    | CommitDone(ok: bool)

  /** Shared memory, and two history variables: log lists the completed operations and
      installed the blocks whose effect is in live. */
  datatype Shared<L, G, B, O> = Shared(
    word: Word,
    seqMu: Option<Thread>,
    done: bool,
    caps: set<Capability>,
    mu: Option<Thread>,
    lastOutcome: Option<O>,
    lastHeight: Uint64,
    live: L,
    staged: G,
    log: seq<Event<B, O>>,
    installed: seq<B>)

  datatype Config<L, G, B, O> = Config(sh: Shared<L, G, B, O>, pcs: map<Thread, Pc<L, B, O>>)

  function Start<L, G, B, O>(live: L, staged: G): Config<L, G, B, O> {
    Config(Shared(Init, None, false, {}, None, None, 0, live, staged, [], []), map[])
  }

  /** What the application answers to Handshake. */
  datatype Answer = AppError | Declares(caps: set<Capability>)

  datatype Action<B> = Call(t: Thread, op: Op<B>) | Tick(t: Thread, answer: Answer)

  function Entry<L, B, O>(op: Op<B>): Pc<L, B, O> {
    match op
    case Handshake => HsSwap
    case ExecuteBlock(b) => ExLock(b)
    case Commit => CmLock
    case Read => RdLoad
    case LastOutcome => LoLock
  }

  // ----- Steps of one thread -----

  /** Blocked on a mutex; or the call ends, by return or by panic; or the thread moves on. */
  datatype Effect<L, G, B, O> =
    | Blocked
    | Ends(sh: Shared<L, G, B, O>)
    | Goes(sh: Shared<L, G, B, O>, pc: Pc<L, B, O>)

  function Logged<L, G, B, O>(sh: Shared<L, G, B, O>, e: Event<B, O>): Shared<L, G, B, O> {
    sh.(log := sh.log + [e])
  }

  /** Taking a mutex that is free. */
  function LockSeq<L, G, B, O>(sh: Shared<L, G, B, O>, t: Thread, pc: Pc<L, B, O>): Effect<L, G, B, O> {
    if sh.seqMu == None then Goes(sh.(seqMu := Some(t)), pc) else Blocked
  }

  function LockMu<L, G, B, O>(sh: Shared<L, G, B, O>, t: Thread, pc: Pc<L, B, O>): Effect<L, G, B, O> {
    if sh.mu == None then Goes(sh.(mu := Some(t)), pc) else Blocked
  }

  /** The block that the staging area holds, by the log: that of a final ExecuteDone. */
  function Pending<B, O>(log: seq<Event<B, O>>): seq<B> {
    if log != [] && log[|log| - 1].ExecuteDone? then [log[|log| - 1].b] else []
  }

  function Step<L, G, B, O>(app: App<L, G, B, O>, sh: Shared<L, G, B, O>, t: Thread, pc: Pc<L, B, O>, answer: Answer)
    : Effect<L, G, B, O>
  {
    match pc
    // Handshake
    case HsSwap => if sh.word == Init then Goes(sh.(word := Ready), HsApp) else Ends(sh)
    case HsApp =>
      if answer.Declares? && answer.caps <= app.implements then Goes(sh, HsCaps(answer.caps)) else Goes(sh, HsFail)
    case HsFail => Ends(Logged(sh.(word := Init), ShakeFailed))
    case HsCaps(caps) => Goes(sh.(caps := caps), HsDone(caps))
    case HsDone(caps) => Ends(Logged(sh.(done := true), Shook(caps)))
    // ExecuteBlock
    case ExLock(b) => LockSeq(sh, t, ExLoad(b))
    case ExLoad(b) => if sh.word == Ready then Goes(sh, ExStore(b)) else Goes(sh, SeqReject(Ready))
    case ExStore(b) => Goes(sh.(word := Executing), ExRead(b))
    case ExRead(b) => Goes(sh, ExRun(b, sh.live))
    case ExRun(b, seen) =>
      (match app.execute(seen, b)
       case None => Goes(sh, ExUndo(b))
       case Some(r) => Goes(sh.(staged := r.staged), ExMuLock(b, r.outcome)))
    case ExUndo(b) => Goes(Logged(sh.(word := Ready), ExecuteFailed(b)), SeqUnlock)
    case ExMuLock(b, o) => LockMu(sh, t, ExOutcome(b, o))
    case ExOutcome(b, o) => Goes(sh.(lastOutcome := Some(o)), ExHeight(b, o))
    case ExHeight(b, o) => Goes(sh.(lastHeight := app.heightOf(b)), ExMuUnlock(b, o))
    case ExMuUnlock(b, o) => Goes(sh.(mu := None), ExDone(b, o))
    case ExDone(b, o) => Goes(Logged(sh.(word := Executed), ExecuteDone(b, o)), SeqUnlock)
    // Commit
    case CmLock => LockSeq(sh, t, CmLoad)
    case CmLoad => if sh.word == Executed then Goes(sh, CmStore) else Goes(sh, SeqReject(Executed))
    case CmStore => Goes(sh.(word := Committing), CmApp)
    case CmApp =>
      (match app.commit(sh.live, sh.staged)
       case Committed(l, g) =>
         Goes(sh.(live := l, staged := g, installed := sh.installed + Pending(sh.log)), CmMuLock(true))
       case CommitFailed => Goes(sh, CmMuLock(false))
       case CommitPanics => Goes(sh, CmPanicked))
    case CmMuLock(ok) => LockMu(sh, t, CmClear(ok))
    case CmClear(ok) => Goes(sh.(lastOutcome := None), CmMuUnlock(ok))
    case CmMuUnlock(ok) => Goes(sh.(mu := None), CmDone(ok))
    case CmDone(ok) => Goes(Logged(sh.(word := Ready), CommitDone(ok)), SeqUnlock)
    case CmPanicked => Blocked
    // Both
    case SeqReject(_) => Ends(sh.(seqMu := None))
    case SeqUnlock => Ends(sh.(seqMu := None))
    // Queries check the handshake flag and then read the committed memory
    case RdLoad => if sh.done then Goes(sh, RdRead) else Ends(sh)
    case RdRead => Ends(sh)
    case LoLock => LockMu(sh, t, LoRead)
    case LoRead => Goes(sh, LoUnlock)
    case LoUnlock => Ends(sh.(mu := None))
  }

  /** The configuration after an action, or None when the action is not possible: a busy
      thread cannot start a call, and a thread that waits for a held mutex cannot move. */
  function Next<L, G, B, O>(app: App<L, G, B, O>, c: Config<L, G, B, O>, a: Action<B>): Option<Config<L, G, B, O>> {
    match a
    case Call(t, op) => if t in c.pcs then None else Some(c.(pcs := c.pcs[t := Entry(op)]))
    case Tick(t, answer) =>
      if t !in c.pcs then None
      else
        match Step(app, c.sh, t, c.pcs[t], answer)
        case Blocked => None
        case Ends(sh) => Some(Config(sh, c.pcs - {t}))
        case Goes(sh, pc) => Some(Config(sh, c.pcs[t := pc]))
  }

  // ----- Runs -----

  function Run<L, G, B, O>(app: App<L, G, B, O>, c: Config<L, G, B, O>,
      actions: seq<Action<B>>): Option<Config<L, G, B, O>>
  {
    if actions == [] then Some(c)
    else
      match Run(app, c, actions[..|actions| - 1])
      case None => None
      case Some(d) => Next(app, d, actions[|actions| - 1])
  }

  /** The engine's side of the contract: sequential calls start only once a handshake has
      completed. */
  predicate Allowed<L, G, B, O>(c: Config<L, G, B, O>, a: Action<B>) {
    a.Call? && (a.op.ExecuteBlock? || a.op.Commit?) ==> c.sh.done
  }

  predicate Obeys<L, G, B, O>(app: App<L, G, B, O>, c: Config<L, G, B, O>, actions: seq<Action<B>>) {
    if actions == [] then true
    else
      var n := |actions| - 1;
      && Obeys(app, c, actions[..n])
      && var d := Run(app, c, actions[..n]);
         d.Some? && Allowed(d.value, actions[n])
  }

  // ----- Mutual exclusion -----

  /** The thread is past the lock of seqMu and before its unlock. */
  predicate HoldsSeq<L, B, O>(pc: Pc<L, B, O>) {
    || pc.ExLoad? || pc.ExStore? || pc.ExRead? || pc.ExRun? || pc.ExUndo?
    || pc.ExMuLock? || pc.ExOutcome? || pc.ExHeight? || pc.ExMuUnlock? || pc.ExDone?
    || pc.CmLoad? || pc.CmStore? || pc.CmApp? || pc.CmMuLock?
    || pc.CmClear? || pc.CmMuUnlock? || pc.CmDone? || pc.CmPanicked? || pc.SeqReject? || pc.SeqUnlock?
  }

  predicate HoldsMu<L, B, O>(pc: Pc<L, B, O>) {
    || pc.ExOutcome? || pc.ExHeight? || pc.ExMuUnlock? || pc.CmClear? || pc.CmMuUnlock?
    || pc.LoRead? || pc.LoUnlock?
  }

  /** Each mutex is owned exactly by the thread that stands in its critical section. */
  ghost predicate Locks<L, G, B, O>(c: Config<L, G, B, O>) {
    && (forall t | t in c.pcs :: HoldsSeq(c.pcs[t]) <==> c.sh.seqMu == Some(t))
    && (forall t | t in c.pcs :: HoldsMu(c.pcs[t]) <==> c.sh.mu == Some(t))
    && (c.sh.seqMu.Some? ==> c.sh.seqMu.value in c.pcs)
    && (c.sh.mu.Some? ==> c.sh.mu.value in c.pcs)
  }

  /** One thread's move on a mutex: keep it as it is, take it when free, or release it. */
  predicate Moves(before: Option<Thread>, after: Option<Thread>, t: Thread, held: bool, holds: bool) {
    && (held == holds ==> after == before)
    && (!held && holds ==> before == None && after == Some(t))
    && (held && !holds ==> after == None)
  }

  lemma StepMovesSeq<L, G, B, O>(app: App<L, G, B, O>, sh: Shared<L, G, B, O>, t: Thread, pc: Pc<L, B, O>,
      answer: Answer)
    ensures var e := Step(app, sh, t, pc, answer);
            !e.Blocked? ==> Moves(sh.seqMu, e.sh.seqMu, t, HoldsSeq(pc), e.Goes? && HoldsSeq(e.pc))
  {
    hide Pending;
  }

  lemma StepMovesMu<L, G, B, O>(app: App<L, G, B, O>, sh: Shared<L, G, B, O>, t: Thread, pc: Pc<L, B, O>,
      answer: Answer)
    ensures var e := Step(app, sh, t, pc, answer);
            !e.Blocked? ==> Moves(sh.mu, e.sh.mu, t, HoldsMu(pc), e.Goes? && HoldsMu(e.pc))
  {
    hide Pending;
  }

  lemma LocksStep<L, G, B, O>(app: App<L, G, B, O>, c: Config<L, G, B, O>, a: Action<B>)
    requires Locks(c) && Next(app, c, a).Some?
    ensures Locks(Next(app, c, a).value)
  {
    hide Step;
    match a
    case Call(t, op) =>
    case Tick(t, answer) =>
      StepMovesSeq(app, c.sh, t, c.pcs[t], answer);
      StepMovesMu(app, c.sh, t, c.pcs[t], answer);
      hide HoldsSeq, HoldsMu;
  }

  lemma {:induction false} LocksAlways<L, G, B, O>(app: App<L, G, B, O>, c: Config<L, G, B, O>, actions: seq<Action<B>>)
    requires Locks(c) && Run(app, c, actions).Some?
    ensures Locks(Run(app, c, actions).value)
  {
    hide Locks, Next;
    if actions != [] {
      var n := |actions| - 1;
      LocksAlways(app, c, actions[..n]);
      LocksStep(app, Run(app, c, actions[..n]).value, actions[n]);
    }
  }

  /** For any number of threads and any interleaving, and whatever the engine does, at most one
      thread is inside ExecuteBlock or Commit past the lock, and at most one holds mu. */
  lemma MutualExclusion<L, G, B, O>(app: App<L, G, B, O>, live: L, staged: G, actions: seq<Action<B>>, t: Thread,
      u: Thread)
    requires Run(app, Start(live, staged), actions).Some?
    requires var c := Run(app, Start(live, staged), actions).value; t in c.pcs && u in c.pcs
    ensures var c := Run(app, Start(live, staged), actions).value;
            && (HoldsSeq(c.pcs[t]) && HoldsSeq(c.pcs[u]) ==> t == u)
            && (HoldsMu(c.pcs[t]) && HoldsMu(c.pcs[u]) ==> t == u)
  {
    LocksAlways(app, Start(live, staged), actions);
  }
}
