/** The server object around an application: the lifecycle guard, the fields that go with it,
    and the calls of one engine thread. The ghost log ties every field to the replay of the
    completed operations. */
module Server {
  import opened Encoding
  import opened Protocol
  import opened ProtocolSpec
  import opened ProtocolProof

  /** A sequential call waits while seqMu is held; then it is admitted, or it panics. */
  datatype Admission = Waiting | Rejected | Admitted

  /** The atomic word, the mutex of the sequential calls and the handshake flag. A method that
      panics returns false. */
  class LifecycleGuard {
    var state: Word
    var seqMu: bool
    var handshakeDone: bool

    constructor ()
      ensures state == Init && !seqMu && !handshakeDone
    {
      state, seqMu, handshakeDone := Init, false, false;
    }

    method AcquireHandshake() returns (ok: bool)
      modifies `state
      ensures ok <==> old(state) == Init
      ensures state == if ok then Ready else old(state)
    {
      ok := state == Init;
      if ok {
        state := Ready;
      }
    }

    method CompleteHandshake()
      modifies `handshakeDone
      ensures handshakeDone
    {
      handshakeDone := true;
    }

    method FailHandshake()
      modifies `state
      ensures state == Init
    {
      state := Init;
    }

    method AcquireExecute() returns (r: Admission)
      modifies `state, `seqMu
      ensures r == if old(seqMu) then Waiting else if old(state) == Ready then Admitted else Rejected
      ensures if r.Admitted? then seqMu && state == Executing else seqMu == old(seqMu) && state == old(state)
    {
      if seqMu {
        return Waiting;
      }
      seqMu := true;
      if state != Ready {
        seqMu := false;
        return Rejected;
      }
      state := Executing;
      r := Admitted;
    }

    method CompleteExecute()
      requires seqMu
      modifies `state, `seqMu
      ensures state == Executed && !seqMu
    {
      state := Executed;
      seqMu := false;
    }

    method FailExecute()
      requires seqMu
      modifies `state, `seqMu
      ensures state == Ready && !seqMu
    {
      state := Ready;
      seqMu := false;
    }

    method AcquireCommit() returns (r: Admission)
      modifies `state, `seqMu
      ensures r == if old(seqMu) then Waiting else if old(state) == Executed then Admitted else Rejected
      ensures if r.Admitted? then seqMu && state == Committing else seqMu == old(seqMu) && state == old(state)
    {
      if seqMu {
        return Waiting;
      }
      seqMu := true;
      if state != Executed {
        seqMu := false;
        return Rejected;
      }
      state := Committing;
      r := Admitted;
    }

    method CompleteCommit()
      requires seqMu
      modifies `state, `seqMu
      ensures state == Ready && !seqMu
    {
      state := Ready;
      seqMu := false;
    }

    method CheckConcurrent() returns (ok: bool)
      ensures ok == handshakeDone
    {
      ok := handshakeDone;
    }
  }

  /** The application behind the server: its memory, changed by the program it runs. */
  class Application<L(!new), G, B(!new), O> {
    const program: App<L, G, B, O>
    var live: L
    var staged: G

    constructor (p: App<L, G, B, O>, live: L, staged: G)
      ensures program == p && this.live == live && this.staged == staged
    {
      program, this.live, this.staged := p, live, staged;
    }

    method ExecuteBlock(b: B) returns (outcome: Option<O>)
      modifies `staged
      ensures match program.execute(live, b)
              case None => outcome == None && staged == old(staged)
              case Some(r) => outcome == Some(r.outcome) && staged == r.staged
    {
      match program.execute(live, b)
      case None =>
        outcome := None;
      case Some(r) =>
        staged := r.staged;
        outcome := Some(r.outcome);
    }

    /** None stands for a panic. */
    method Commit() returns (ok: Option<bool>)
      modifies `live, `staged
      ensures match program.commit(old(live), old(staged))
              case Committed(l, g) => ok == Some(true) && live == l && staged == g
              case CommitFailed => ok == Some(false) && live == old(live) && staged == old(staged)
              case CommitPanics => ok == None && live == old(live) && staged == old(staged)
    {
      match program.commit(live, staged)
      case Committed(l, g) =>
        live, staged := l, g;
        ok := Some(true);
      case CommitFailed =>
        ok := Some(false);
      case CommitPanics =>
        ok := None;
    }
  }

  /** How a call ends: the guard panics, the application panics, an interface is missing, an
      error, or a result. */
  datatype Reply<R> = Panicked | Crashed | Unsupported | Failed | Returned(value: R)

  /** The declared capabilities are checked one by one against the implemented interfaces. */
  function DiscoverCapabilities(implements: set<Capability>, declared: set<Capability>): (ok: bool) {
    if ProposalControl in declared && ProposalControl !in implements then false
    else if VoteExtensions in declared && VoteExtensions !in implements then false
    else if StateSync in declared && StateSync !in implements then false
    else if Simulation in declared && Simulation !in implements then false
    else !(MempoolObserver in declared && MempoolObserver !in implements)
  }

  /** No declared capability escapes the checks. */
  lemma DiscoversExactly(implements: set<Capability>, declared: set<Capability>)
    ensures DiscoverCapabilities(implements, declared) <==> declared <= implements
  {
    if DiscoverCapabilities(implements, declared) {
      forall cap | cap in declared ensures cap in implements {
        match cap
        case ProposalControl =>
        case VoteExtensions =>
        case StateSync =>
        case Simulation =>
        case MempoolObserver =>
      }
    }
  }

  class Server<L(!new), G, B(!new), O(==)> {
    const app: Application<L, G, B, O>
    const guard: LifecycleGuard
    var caps: set<Capability>
    var lastOutcome: Option<O>
    var lastExecHeight: Uint64

    // The application's memory at the start, and the operations completed since.
    ghost const live0: L
    ghost const staged0: G
    ghost var log: seq<Event<B, O>>

    /** The abstract server after the log. */
    ghost function Replayed(): Option<Abs<L, G, B, O>>
      reads this
    {
      Replay(app.program, live0, staged0, log)
    }

    /** Between calls, every field is what the log says. */
    ghost predicate Valid()
      reads this, app, guard
    {
      && !guard.seqMu
      && Replayed().Some?
      && var a := Replayed().value;
      && guard.state == a.word
      && (guard.handshakeDone <==> a.word != Init)
      && caps == a.caps
      && lastOutcome == a.lastOutcome
      && lastExecHeight == a.lastHeight
      && app.live == a.live
      && app.staged == a.staged
    }

    constructor (p: App<L, G, B, O>, live: L, staged: G)
      ensures Valid() && fresh(app) && fresh(guard)
      ensures app.program == p && live0 == live && staged0 == staged && log == []
      ensures app.live == live && app.staged == staged
      ensures guard.state == Init && !guard.handshakeDone && caps == {} && lastOutcome == None
    {
      app := new Application(p, live, staged);
      guard := new LifecycleGuard();
      caps, lastOutcome, lastExecHeight := {}, None, 0;
      live0, staged0, log := live, staged, [];
    }

    /** Whatever the application answers; a failed handshake can be repeated. */
    method Handshake(answer: Answer) returns (r: Reply<set<Capability>>)
      requires Valid()
      modifies this, guard
      ensures Valid()
      ensures r.Panicked? <==> old(guard.state) != Init
      ensures r.Panicked? ==> unchanged(this) && unchanged(guard)
      ensures old(guard.state) == Init ==>
                if answer.Declares? && answer.caps <= app.program.implements
                then && r == Returned(answer.caps) && log == old(log) + [Shook(answer.caps)]
                     && caps == answer.caps && guard.state == Ready && guard.handshakeDone
                else && r == Failed && log == old(log) + [ShakeFailed]
                     && caps == old(caps) && guard.state == Init && !guard.handshakeDone
      ensures lastOutcome == old(lastOutcome) && lastExecHeight == old(lastExecHeight)
    {
      var acquired := guard.AcquireHandshake();
      if !acquired {
        return Panicked;
      }
      if answer.Declares? {
        DiscoversExactly(app.program.implements, answer.caps);
      }
      if answer.AppError? || !DiscoverCapabilities(app.program.implements, answer.caps) {
        guard.FailHandshake();
        Complete(ShakeFailed);
        return Failed;
      }
      caps := answer.caps;
      guard.CompleteHandshake();
      Complete(Shook(answer.caps));
      r := Returned(answer.caps);
    }

    method ExecuteBlock(b: B) returns (r: Reply<O>)
      requires Valid()
      modifies this, app, guard
      ensures Valid()
      ensures r.Panicked? <==> old(guard.state) != Ready
      ensures r.Panicked? ==> unchanged(this) && unchanged(app) && unchanged(guard)
      ensures old(guard.state) == Ready ==>
                match app.program.execute(old(app.live), b)
                case None =>
                  && r == Failed && log == old(log) + [ExecuteFailed(b)]
                  && guard.state == Ready && unchanged(app)
                  && lastOutcome == old(lastOutcome) && lastExecHeight == old(lastExecHeight)
                case Some(e) =>
                  && r == Returned(e.outcome) && log == old(log) + [ExecuteDone(b, e.outcome)]
                  && guard.state == Executed && app.live == old(app.live) && app.staged == e.staged
                  && lastOutcome == Some(e.outcome) && lastExecHeight == app.program.heightOf(b)
      ensures caps == old(caps)
    {
      var acquired := guard.AcquireExecute();
      if acquired.Rejected? {
        return Panicked;
      }
      var outcome := app.ExecuteBlock(b);
      if outcome.None? {
        guard.FailExecute();
        Complete(ExecuteFailed(b));
        return Failed;
      }
      lastOutcome := outcome;
      lastExecHeight := app.program.heightOf(b);
      guard.CompleteExecute();
      Complete(ExecuteDone(b, outcome.value));
      r := Returned(outcome.value);
    }

    /** An application that panics leaves the word at Committing and seqMu held for good; one
        that accepts what it staged never does. */
    method Commit() returns (r: Reply<bool>)
      requires Valid()
      modifies this, app, guard
      ensures r.Panicked? <==> old(guard.state) != Executed
      ensures r.Panicked? ==> unchanged(this) && unchanged(app) && unchanged(guard)
      ensures r.Crashed? <==>
                old(guard.state) == Executed && app.program.commit(old(app.live), old(app.staged)).CommitPanics?
      ensures r.Crashed? ==> unchanged(this) && unchanged(app) && guard.state == Committing && guard.seqMu
      ensures Safe(app.program) ==> !r.Crashed?
      ensures !r.Crashed? ==> Valid()
      ensures old(guard.state) == Executed && !r.Crashed? ==>
                && r == Returned(app.program.commit(old(app.live), old(app.staged)).Committed?)
                && log == old(log) + [CommitDone(r.value)]
                && lastOutcome == None && guard.state == Ready
                && match app.program.commit(old(app.live), old(app.staged))
                   case Committed(l, g) => app.live == l && app.staged == g
                   case _ => unchanged(app)
      ensures caps == old(caps) && lastExecHeight == old(lastExecHeight)
    {
      var acquired := guard.AcquireCommit();
      if acquired.Rejected? {
        return Panicked;
      }
      ReplayConsistent(app.program, live0, staged0, log);
      var ok := app.Commit();
      if ok.None? {
        return Crashed;
      }
      lastOutcome := None;
      guard.CompleteCommit();
      Complete(CommitDone(ok.value));
      r := Returned(ok.value);
    }

    /** Records a completed operation. */
    ghost method Complete(e: Event<B, O>)
      modifies `log
      ensures log == old(log) + [e]
      ensures Replayed() == if old(Replayed()).None? then None else Apply(app.program, old(Replayed()).value, e)
    {
      ReplayAppend(app.program, live0, staged0, log, e);
      log := log + [e];
    }

    /** A query reads the committed memory, and panics before the first completed handshake. */
    method Query<R>(read: L -> R) returns (r: Reply<R>)
      requires Valid()
      ensures r == if guard.state == Init then Panicked else Returned(read(app.live))
    {
      var ok := guard.CheckConcurrent();
      r := if ok then Returned(read(app.live)) else Panicked;
    }

    /** The missing interface is reported before the guard is asked. */
    method Simulate<R>(read: L -> R) returns (r: Reply<R>)
      requires Valid()
      ensures r == if Simulation !in app.program.implements then Unsupported
                   else if guard.state == Init then Panicked else Returned(read(app.live))
    {
      if Simulation !in app.program.implements {
        return Unsupported;
      }
      r := Query(read);
    }

    method LastOutcome() returns (o: Option<O>)
      requires Valid()
      ensures o.Some? <==> guard.state == Executed
      ensures o.Some? ==> log != [] && log[|log| - 1] == ExecuteDone(Replayed().value.pending[0], o.value)
    {
      ReplayConsistent(app.program, live0, staged0, log);
      if guard.state == Executed {
        LegalLogsAlternate(app.program, live0, staged0, log);
      }
      o := lastOutcome;
    }

    /** Whether an optional interface is handed to the engine: exactly when it was declared. */
    function As(cap: Capability): (offered: bool)
      requires Valid()
      reads this, app, guard
      ensures offered <==> cap in caps
    {
      ReplayConsistent(app.program, live0, staged0, log);
      cap in caps && cap in app.program.implements
    }

    /** Over any sequence of calls: operations alternate, and the committed memory is the fold of
        the committed blocks. */
    lemma CallsRefineFold()
      requires Valid()
      ensures LifecycleShape(log)
      ensures var a := Replayed().value;
              && app.live == Fold(app.program, live0, a.committed)
              && Reported(app.program, live0, a.committed, a.outcomes)
              && (guard.state == Executed ==>
                  app.program.execute(app.live, a.pending[0]) == Some(Staged(app.staged, lastOutcome.value)))
    {
      ReplayConsistent(app.program, live0, staged0, log);
      LegalLogsAlternate(app.program, live0, staged0, log);
    }
  }
}
