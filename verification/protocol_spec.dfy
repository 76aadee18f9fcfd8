/** The sequential meaning of the server: its abstract state after a log of completed
    operations, and which logs are legal. */
module ProtocolSpec {
  import opened Encoding
  import opened Protocol

  /** What the server should look like between operations. committed and outcomes list the
      blocks whose commit succeeded and what ExecuteBlock reported for them. */
  datatype Abs<L, G, B, O> = Abs(
    word: Word,
    caps: set<Capability>,
    lastOutcome: Option<O>,
    lastHeight: Uint64,
    live: L,
    staged: G,
    pending: seq<B>,
    committed: seq<B>,
    outcomes: seq<O>)

  function Fresh<L, G, B, O>(live: L, staged: G): Abs<L, G, B, O> {
    Abs(Init, {}, None, 0, live, staged, [], [], [])
  }

  /** The effect of one completed operation; None when it cannot complete in this state. */
  function Apply<L, G, B, O(==)>(app: App<L, G, B, O>, a: Abs<L, G, B, O>, e: Event<B, O>): Option<Abs<L, G, B, O>> {
    match e
    case ShakeFailed => if a.word == Init then Some(a) else None
    case Shook(caps) =>
      if a.word == Init && caps <= app.implements then Some(a.(word := Ready, caps := caps)) else None
    case ExecuteFailed(b) =>
      if a.word == Ready && app.execute(a.live, b) == None then Some(a) else None
    case ExecuteDone(b, o) =>
      var r := app.execute(a.live, b);
      if a.word == Ready && r.Some? && r.value.outcome == o then
        Some(a.(word := Executed, lastOutcome := Some(o), lastHeight := app.heightOf(b),
                staged := r.value.staged, pending := [b]))
      else None
    case CommitDone(ok) =>
      if a.word != Executed || a.lastOutcome == None then None
      else
        match app.commit(a.live, a.staged)
        case Committed(l, g) =>
          if ok then
            Some(a.(word := Ready, lastOutcome := None, live := l, staged := g, pending := [],
                    committed := a.committed + a.pending, outcomes := a.outcomes + [a.lastOutcome.value]))
          else None
        case CommitFailed => if ok then None else Some(a.(word := Ready, lastOutcome := None, pending := []))
        case CommitPanics => None
  }

  function Replay<L, G, B, O(==)>(app: App<L, G, B, O>, live: L, staged: G,
      log: seq<Event<B, O>>): Option<Abs<L, G, B, O>>
  {
    if log == [] then Some(Fresh(live, staged))
    else
      match Replay(app, live, staged, log[..|log| - 1])
      case None => None
      case Some(a) => Apply(app, a, log[|log| - 1])
  }

  lemma ReplayAppend<L, G, B, O>(app: App<L, G, B, O>, live: L, staged: G, log: seq<Event<B, O>>, e: Event<B, O>)
    ensures var before := Replay(app, live, staged, log);
            Replay(app, live, staged, log + [e]) == if before.None? then None else Apply(app, before.value, e)
  {
    assert (log + [e])[..|log|] == log;
  }

  // ----- The fold of committed blocks -----

  /** The committed memory after executing and committing one block. */
  function Advance<L, G, B, O>(app: App<L, G, B, O>, live: L, b: B): L {
    match app.execute(live, b)
    case None => live
    case Some(r) =>
      match app.commit(live, r.staged)
      case Committed(l, _) => l
      case _ => live
  }

  function Fold<L, G, B, O>(app: App<L, G, B, O>, live: L, blocks: seq<B>): L {
    if blocks == [] then live
    else Advance(app, Fold(app, live, blocks[..|blocks| - 1]), blocks[|blocks| - 1])
  }

  /** The blocks were executed one after the other with these outcomes. */
  ghost predicate Reported<L, G, B, O>(app: App<L, G, B, O>, live: L, blocks: seq<B>, outcomes: seq<O>) {
    && |blocks| == |outcomes|
    && forall i | 0 <= i < |blocks| ::
         var r := app.execute(Fold(app, live, blocks[..i]), blocks[i]);
         r.Some? && r.value.outcome == outcomes[i]
  }

  lemma FoldAppend<L, G, B, O>(app: App<L, G, B, O>, live: L, blocks: seq<B>, b: B)
    ensures Fold(app, live, blocks + [b]) == Advance(app, Fold(app, live, blocks), b)
  {
    assert (blocks + [b])[..|blocks|] == blocks;
  }

  lemma ReportedAppend<L, G, B, O>(app: App<L, G, B, O>, live: L, blocks: seq<B>, outcomes: seq<O>, b: B, o: O)
    requires Reported(app, live, blocks, outcomes)
    requires var r := app.execute(Fold(app, live, blocks), b); r.Some? && r.value.outcome == o
    ensures Reported(app, live, blocks + [b], outcomes + [o])
  {
    forall i | 0 <= i < |blocks + [b]|
      ensures var r := app.execute(Fold(app, live, (blocks + [b])[..i]), (blocks + [b])[i]);
              r.Some? && r.value.outcome == (outcomes + [o])[i]
    {
      if i < |blocks| {
        assert (blocks + [b])[..i] == blocks[..i];
      } else {
        assert (blocks + [b])[..i] == blocks;
      }
    }
  }

  /** What holds of the abstract state after every legal log. */
  ghost predicate Consistent<L, G, B, O>(app: App<L, G, B, O>, live: L, a: Abs<L, G, B, O>) {
    && (a.word == Init || a.word == Ready || a.word == Executed)
    && a.caps <= app.implements
    && a.live == Fold(app, live, a.committed)
    && Reported(app, live, a.committed, a.outcomes)
    && (a.word != Executed ==> a.lastOutcome == None && a.pending == [])
    && (a.word == Executed ==>
        && |a.pending| == 1
        && a.lastHeight == app.heightOf(a.pending[0])
        && a.lastOutcome.Some?
        && app.execute(a.live, a.pending[0]) == Some(Staged(a.staged, a.lastOutcome.value)))
  }

  lemma ApplyConsistent<L, G, B, O>(app: App<L, G, B, O>, live: L, a: Abs<L, G, B, O>, e: Event<B, O>)
    requires Consistent(app, live, a) && Apply(app, a, e).Some?
    ensures Consistent(app, live, Apply(app, a, e).value)
  {
    if e.CommitDone? && e.ok {
      FoldAppend(app, live, a.committed, a.pending[0]);
      ReportedAppend(app, live, a.committed, a.outcomes, a.pending[0], a.lastOutcome.value);
      assert a.pending == [a.pending[0]];
    }
    hide Reported;
  }

  lemma {:induction false} ReplayConsistent<L, G, B, O>(app: App<L, G, B, O>, live: L, staged: G, log: seq<Event<B, O>>)
    requires Replay(app, live, staged, log).Some?
    ensures Consistent(app, live, Replay(app, live, staged, log).value)
  {
    hide Consistent, Apply;
    if log == [] {
      assert Consistent(app, live, Fresh<L, G, B, O>(live, staged)) by {
        FreshConsistent<L, G, B, O>(app, live, staged);
      }
    } else {
      var n := |log| - 1;
      ReplayConsistent(app, live, staged, log[..n]);
      ApplyConsistent(app, live, Replay(app, live, staged, log[..n]).value, log[n]);
    }
  }

  lemma FreshConsistent<L, G, B, O>(app: App<L, G, B, O>, live: L, staged: G)
    ensures Consistent(app, live, Fresh<L, G, B, O>(live, staged))
  {
  }

  // ----- The shape of logs -----

  /** Failed handshakes, then at most one successful one and the block cycles. */
  predicate LifecycleShape<B, O>(log: seq<Event<B, O>>) {
    if log == [] then true
    else if log[0].ShakeFailed? then LifecycleShape(log[1..])
    else log[0].Shook? && CycleShape(log[1..])
  }

  /** A prefix of (failed Execute* successful Execute, Commit)*. */
  predicate CycleShape<B, O>(log: seq<Event<B, O>>) {
    if log == [] then true
    else if log[0].ExecuteFailed? then CycleShape(log[1..])
    else log[0].ExecuteDone? && (log[1..] == [] || (log[1].CommitDone? && CycleShape(log[2..])))
  }

  /** The lifecycle word that a log leads to. */
  function WordAfter<B, O>(log: seq<Event<B, O>>): Word {
    if log == [] then Init
    else
      match log[|log| - 1]
      case ShakeFailed => Init
      case ExecuteDone(_, _) => Executed
      case _ => Ready
  }

  /** Which event may follow in a given word. */
  predicate MayFollow<B, O>(w: Word, e: Event<B, O>) {
    match e
    case ShakeFailed => w == Init
    case Shook(_) => w == Init
    case ExecuteFailed(_) => w == Ready
    case ExecuteDone(_, _) => w == Ready
    case CommitDone(_) => w == Executed
  }

  lemma {:induction false} CycleExtends<B, O>(log: seq<Event<B, O>>, e: Event<B, O>)
    requires CycleShape(log) && MayFollow(if log == [] then Ready else WordAfter(log), e)
    requires !e.ShakeFailed? && !e.Shook?
    ensures CycleShape(log + [e])
  {
    if log == [] {
      assert [e][1..] == [];
    } else if log[0].ExecuteFailed? {
      assert (log + [e])[1..] == log[1..] + [e];
      CycleExtends(log[1..], e);
    } else if log[1..] == [] {
      assert log == [log[0]] && (log + [e])[1..] == [e] && (log + [e])[2..] == [];
    } else {
      assert (log + [e])[1..] == log[1..] + [e] && (log + [e])[2..] == log[2..] + [e];
      CycleExtends(log[2..], e);
    }
  }

  lemma {:induction false} CycleNeverInit<B, O>(log: seq<Event<B, O>>)
    requires CycleShape(log) && log != []
    ensures WordAfter(log) != Init
  {
    if log[1..] != [] {
      if log[0].ExecuteFailed? {
        CycleNeverInit(log[1..]);
      } else if log[2..] != [] {
        CycleNeverInit(log[2..]);
      }
    }
  }

  lemma {:induction false} LifecycleExtends<B, O>(log: seq<Event<B, O>>, e: Event<B, O>)
    requires LifecycleShape(log) && MayFollow(WordAfter(log), e)
    ensures LifecycleShape(log + [e])
  {
    if log == [] {
      assert [e][1..] == [];
    } else {
      assert (log + [e])[1..] == log[1..] + [e];
      if log[0].ShakeFailed? {
        LifecycleExtends(log[1..], e);
      } else {
        if log[1..] != [] {
          CycleNeverInit(log[1..]);
        }
        CycleExtends(log[1..], e);
      }
    }
  }

  /** Completed operations alternate: after failed handshakes and one handshake, each block is
      executed successfully once, after any failed attempts, and then committed. */
  lemma {:induction false} LegalLogsAlternate<L, G, B, O>(app: App<L, G, B, O>, live: L, staged: G,
      log: seq<Event<B, O>>)
    requires Replay(app, live, staged, log).Some?
    ensures LifecycleShape(log) && Replay(app, live, staged, log).value.word == WordAfter(log)
  {
    if log != [] {
      var n := |log| - 1;
      LegalLogsAlternate(app, live, staged, log[..n]);
      LifecycleExtends(log[..n], log[n]);
      assert log == log[..n] + [log[n]];
    }
  }
}
