/** What proxyChannel promises, for every interleaving: no early close, no loss, replies that are
    complete and in order, and a teardown that always ends. */
module ChannelTheorems {
  import opened Basics
  import opened ChannelMachine
  import opened ChannelInvariant
  import opened ChannelSafety

  lemma ReachableInv(s: State)
    requires Reaches(AsWritten, s)
    ensures Inv(s)
  {
    hide Inv;
    var run :| Runs(AsWritten, INITIAL, run) && After(AsWritten, INITIAL, run) == s;
    InitialInv();
    RunInv(INITIAL, run);
  }

  /** Neither side is closed while the upstream's request channel is open or undrained. */
  lemma NoEarlyClose(s: State)
    requires Reaches(AsWritten, s)
    ensures s.sync.cliCloseSent || s.sync.upCloseSent ==>
      s.up.closed && s.up.queue == [] && s.up.done && s.io.out.pc.Finished? && s.io.err.pc.Finished?
  {
    ReachableInv(s);
  }

  /** Whatever the interleaving, the client only ever holds a prefix of each stream, and once either
      side is closed it holds all of it, with every request, unless a write to the client failed. */
  lemma NothingLost(s: State)
    requires Reaches(AsWritten, s)
    ensures s.io.out.delivered <= s.io.out.sent && s.io.err.delivered <= s.io.err.sent
    ensures !s.up.missed ==> s.up.got <= s.up.sent
    ensures s.sync.cliCloseSent || s.sync.upCloseSent ==>
      && (!s.io.out.failed ==> s.io.out.delivered == s.io.out.sent)
      && (!s.io.err.failed ==> s.io.err.delivered == s.io.err.sent)
      && (!s.up.missed ==> s.up.got == s.up.sent)
  {
    ReachableInv(s);
    NoEarlyClose(s);
  }

  /** CloseWrite reaches the upstream only behind everything the client wrote to stdin. */
  lemma StdinEndsLast(s: State)
    requires Reaches(AsWritten, s)
    ensures s.io.inn.delivered <= s.io.inn.sent && s.io.innErr.delivered <= s.io.innErr.sent
    ensures s.io.stdinEnded && !s.io.inn.failed ==> s.io.inn.eof && s.io.inn.delivered == s.io.inn.sent
  {
    ReachableInv(s);
  }

  /** Before and after the close: what the upstream received is an in-order prefix of the client's
      requests without the agent ones, complete for the requests already decided while it was open;
      and the replies are the ones due, to exactly the wanted requests among those that took the
      lock before teardown did. */
  lemma RepliesComplete(s: State)
    requires Reaches(AsWritten, s)
    ensures s.cli.handled <= s.cli.sent && s.cli.got <= NonAgent(s.cli.sent)
    ensures !s.up.closed && !s.cli.loop.Locked? ==> s.cli.got == NonAgent(s.cli.handled)
    ensures !s.sync.cliCloseSent && !InCritical(s.cli.loop) ==>
      s.cli.replies == Expected(s.cli.handled, |s.cli.got|, s.cli.answers)
    ensures s.sync.cliCloseSent ==>
      && s.sync.handledAtTeardown <= s.cli.sent
      && s.cli.got <= NonAgent(s.sync.handledAtTeardown)
      && s.cli.replies == Expected(s.sync.handledAtTeardown, |s.cli.got|, s.cli.answers)
      && |s.cli.replies| == |Wanted(s.sync.handledAtTeardown)|
  {
    ReachableInv(s);
    var decided := Decided(s.cli);
    WantedGrows(decided, s.cli.handled);
    WantedGrows(s.cli.handled, s.cli.sent);
    ExpectedLength(s.sync.handledAtTeardown, |s.cli.got|, s.cli.answers);
  }

  /** The client's own answers go back to the upstream once each and in order. */
  lemma UpstreamHearsAnswers(s: State)
    requires Reaches(AsWritten, s) && !s.up.missed && !s.cli.gone
    ensures s.up.replies <= s.up.answers
    ensures s.up.loop.Idle? ==> s.up.replies == s.up.answers && |s.up.answers| == |Wanted(s.up.got)|
  {
    ReachableInv(s);
  }

  /** The wait groups never go below zero and count exactly the goroutines still running. */
  lemma WaitGroupsExact(s: State)
    requires Reaches(AsWritten, s)
    ensures 0 <= s.sync.fromLeft <= 2 && 0 <= s.sync.drainLeft <= 4
    ensures s.sync.fromLeft == 0 <==> s.io.out.pc.Finished? && s.io.err.pc.Finished?
    ensures s.sync.main.Returned? ==>
      s.io.inn.pc.Finished? && s.io.innErr.pc.Finished? && s.up.loop.Done? && s.cli.loop.Done?
  {
    ReachableInv(s);
  }

  // Liveness

  /** Steps the proxy takes by itself, or that the client owes it: a write completes or fails, a
      request is answered, a Close is acknowledged. */
  predicate IsProgress(s: State, a: Step) {
    match a
    case Peer(p) => p.ClientCloses? && s.sync.cliCloseSent
    case _ => true
  }

  /** Such a step without any failure of a write to a client whose channel is open. */
  predicate Willing(s: State, a: Step) {
    && IsProgress(s, a)
    && match a
       case Owed(ClientFails(_)) => ClientUnwritable(s)
       case UpLoop(UpForward(delivered)) => delivered || ClientUnwritable(s)
       case _ => true
  }

  lemma CopyProgress(s: State, x: Stream)
    requires Inv(s) && s.up.closed && !Get(s.io, x).pc.Finished?
    requires FromUpstream(x) || s.cli.gone
    ensures exists a :: Willing(s, a) && Enabled(AsWritten, s, a)
  {
    var p := Get(s.io, x);
    match p.pc
    case Reading =>
      if p.buffer != [] {
        assert Enabled(AsWritten, s, Copy(Read(x, |p.buffer|)));
      } else {
        assert Enabled(AsWritten, s, Copy(SeeEof(x)));
      }
    case Writing =>
      if FromUpstream(x) {
        if ClientUnwritable(s) {
          assert Enabled(AsWritten, s, Owed(ClientFails(x)));
        } else {
          assert Enabled(AsWritten, s, Owed(ClientTakes(x, |p.hand|)));
        }
      } else {
        assert Enabled(AsWritten, s, Copy(UpWriteFails(x)));
      }
    case Copied =>
      if x.Stdin? && !s.io.stdinEnded {
        assert Enabled(AsWritten, s, Copy(CloseWrite));
      } else {
        assert Enabled(AsWritten, s, Copy(Finish(x)));
      }
    case Finished =>
  }

  lemma UpLoopProgress(s: State)
    requires Inv(s) && s.up.closed && !s.up.loop.Done?
    ensures exists a :: Willing(s, a) && Enabled(AsWritten, s, a)
  {
    match s.up.loop
    case Idle =>
      if s.up.queue != [] {
        assert Enabled(AsWritten, s, UpLoop(UpTake));
      } else {
        assert Enabled(AsWritten, s, UpLoop(UpEnd));
      }
    case Have(_) => assert Enabled(AsWritten, s, UpLoop(UpForward(!ClientUnwritable(s))));
    case Await(_) =>
      if s.cli.gone {
        assert Enabled(AsWritten, s, UpLoop(UpGiveUp));
      } else {
        assert Enabled(AsWritten, s, Owed(ClientAnswers(true)));
      }
    case Reply(_, _) => assert Enabled(AsWritten, s, UpLoop(UpReply));
    case Exit => assert Enabled(AsWritten, s, UpLoop(UpSignal));
    case Signalled => assert Enabled(AsWritten, s, UpLoop(UpFinish));
    case _ =>
  }

  /** A holder of the reply lock always has a next step: SendRequest cannot outlast the upstream. */
  lemma CriticalProgress(s: State)
    requires Inv(s) && s.up.closed && InCritical(s.cli.loop)
    ensures exists a :: Willing(s, a) && Enabled(AsWritten, s, a)
  {
    match s.cli.loop
    case Locked(_) => assert Enabled(AsWritten, s, CliLoop(CliForward));
    case Await(_) =>
      if s.cli.pending.Some? {
        assert Enabled(AsWritten, s, CliLoop(CliHear));
      } else {
        assert Enabled(AsWritten, s, CliLoop(CliGiveUp));
      }
    case Reply(_, _) => assert Enabled(AsWritten, s, CliLoop(CliReply));
    case Unlock => assert Enabled(AsWritten, s, CliLoop(CliUnlock));
    case _ =>
  }

  lemma CliLoopProgress(s: State)
    requires Inv(s) && s.up.closed && s.sync.main.WaitDrain? && s.cli.gone && !s.cli.loop.Done?
    ensures exists a :: Willing(s, a) && Enabled(AsWritten, s, a)
  {
    if InCritical(s.cli.loop) {
      CriticalProgress(s);
    } else if s.cli.loop.Idle? {
      if s.cli.queue != [] {
        assert Enabled(AsWritten, s, CliLoop(CliTake));
      } else {
        assert Enabled(AsWritten, s, CliLoop(CliEnd));
      }
    } else if s.cli.loop.Have? {
      assert Enabled(AsWritten, s, CliLoop(CliLock));
    } else {
      assert Enabled(AsWritten, s, CliLoop(CliFinish));
    }
  }

  lemma DrainProgress(s: State)
    requires Inv(s) && s.up.closed && s.sync.main.WaitDrain?
    ensures exists a :: Willing(s, a) && Enabled(AsWritten, s, a)
  {
    if !s.cli.gone {
      assert Enabled(AsWritten, s, Peer(ClientCloses));
    } else if !s.io.inn.pc.Finished? {
      CopyProgress(s, Stdin);
    } else if !s.io.innErr.pc.Finished? {
      CopyProgress(s, StdinErr);
    } else if !s.up.loop.Done? {
      UpLoopProgress(s);
    } else if !s.cli.loop.Done? {
      CliLoopProgress(s);
    } else {
      assert Enabled(AsWritten, s, MainStep);
    }
  }

  /** Deadlock freedom: once the upstream channel has closed, every state short of return has a
      step that the proxy can take or that the client owes it, and no write has to fail for that while
      the client's channel is open. The client need not send EOF, and the reply lock may be held when
      teardown asks for it. */
  lemma NoDeadlock(s: State)
    requires Reaches(AsWritten, s) && s.up.closed && !s.sync.main.Returned?
    ensures exists a :: Willing(s, a) && Enabled(AsWritten, s, a)
  {
    ReachableInv(s);
    match s.sync.main
    case WaitUp => if s.up.done { assert Enabled(AsWritten, s, MainStep); } else { UpLoopProgress(s); }
    case WaitCopies =>
      if !s.io.out.pc.Finished? {
        CopyProgress(s, Stdout);
      } else if !s.io.err.pc.Finished? {
        CopyProgress(s, Stderr);
      } else {
        assert Enabled(AsWritten, s, MainStep);
      }
    case WaitLock => if s.sync.lock.Free? { assert Enabled(AsWritten, s, MainStep); } else { CriticalProgress(s); }
    case CloseClient => assert Enabled(AsWritten, s, MainStep);
    case CloseUp => assert Enabled(AsWritten, s, MainStep);
    case ReleaseLock => assert Enabled(AsWritten, s, MainStep);
    case WaitDrain => DrainProgress(s);
    case Returned =>
  }

  // A bound on every run after the upstream's CLOSE

  function PipeWeight(p: Pipe, ended: bool): nat {
    4 * |p.buffer| + 2 * |p.hand|
    + match p.pc { case Writing => 4 case Reading => 3 case Copied => if ended then 1 else 2 case Finished => 0 }
  }

  function UpWeight(u: UpSide): nat {
    4 * |u.queue|
    + match u.loop {
      case Have(_) => 6 case Await(_) => 5 case Reply(_, _) => 4 case Idle => 3
      case Exit => 2 case Signalled => 1 case _ => 0
    }
  }

  function CliWeight(c: CliSide): nat {
    6 * |c.queue|
    + match c.loop {
      case Have(_) => 7 case Locked(_) => 6 case Await(_) => 5 case Reply(_, _) => 4 case Unlock => 3 case Idle => 2
      case Exit => 1 case _ => 0
    }
  }

  function MainWeight(m: MainPc): nat {
    match m
    case WaitUp => 7
    case WaitCopies => 6
    case WaitLock => 5
    case CloseClient => 4
    case CloseUp => 3
    case ReleaseLock => 2
    case WaitDrain => 1
    case Returned => 0
  }

  function IoWeight(io: Streams): nat {
    PipeWeight(io.out, true) + PipeWeight(io.err, true)
    + PipeWeight(io.inn, io.stdinEnded) + PipeWeight(io.innErr, true)
  }

  /** The steps still to come if the client sends nothing more. */
  function Measure(s: State): nat {
    IoWeight(s.io) + UpWeight(s.up) + CliWeight(s.cli) + MainWeight(s.sync.main) + (if s.cli.gone then 0 else 1)
  }

  /** What one more input from the client can add. */
  function InputCost(a: Step): nat {
    match a
    case Peer(Arrive(_, data)) => 4 * |data|
    case Peer(ClientRequest(_)) => 6
    case _ => 0
  }

  lemma PutWeight(io: Streams, x: Stream, p: Pipe, change: int)
    requires var ended := if x.Stdin? then io.stdinEnded else true;
      PipeWeight(p, ended) as int <= PipeWeight(Get(io, x), ended) + change
    ensures IoWeight(Put(io, x, p)) as int <= IoWeight(io) + change
  {
    hide PipeWeight;
  }

  lemma CopyDescends(s: State, a: CopyAct)
    requires PipesOk(s.io) && CopyEnabled(s, a)
    ensures Measure(CopyNext(s, a)) < Measure(s)
  {
    match a
    case Read(x, k) => PutWeight(s.io, x, Chunk(Get(s.io, x), k), -1);
    case SeeEof(x) => PutWeight(s.io, x, Get(s.io, x).(pc := Copied), -1);
    case UpWriteFails(x) => PutWeight(s.io, x, Break(Get(s.io, x)), -1);
    case CloseWrite =>
    case Finish(x) => PutWeight(s.io, x, Get(s.io, x).(pc := Finished), -1);
  }

  lemma OwedDescends(s: State, a: OwedAct)
    requires OwedEnabled(s, a)
    ensures Measure(OwedNext(s, a)) < Measure(s)
  {
    match a
    case ClientTakes(x, k) => PutWeight(s.io, x, Take(Get(s.io, x), k), -1);
    case ClientFails(x) => PutWeight(s.io, x, Break(Get(s.io, x)), -1);
    case ClientAnswers(_) =>
  }

  lemma UpDescends(s: State, a: UpAct)
    requires UpEnabled(s, a)
    ensures Measure(UpNext(s, a)) < Measure(s)
  {
    hide IoWeight;
  }

  /** With the upstream closed, a request from the client cannot be forwarded and wait. */
  lemma CliDescends(s: State, a: CliAct)
    requires CliEnabled(s, a) && s.up.closed
    ensures Measure(CliNext(s, a)) < Measure(s)
  {
    hide IoWeight;
  }

  lemma MainDescends(s: State)
    requires MainEnabled(AsWritten, s)
    ensures Measure(MainNext(AsWritten, s)) < Measure(s)
  {
    hide IoWeight;
  }

  lemma PeerDescends(s: State, a: PeerAct)
    requires EofOk(s) && s.up.closed && PeerEnabled(s, a)
    ensures PeerNext(s, a).up.closed
    ensures Measure(PeerNext(s, a)) + (if a.ClientCloses? then 1 else 0) <= Measure(s) + InputCost(Peer(a))
  {
    if a.Arrive? { PutWeight(s.io, a.x, Receive(Get(s.io, a.x), a.data), 4 * |a.data|); }
  }

  /** Every progress step uses up the measure, and only the client's own input refills it. */
  lemma StepDescends(s: State, a: Step)
    requires Inv(s) && s.up.closed && Enabled(AsWritten, s, a)
    ensures Next(AsWritten, s, a).up.closed
    ensures Measure(Next(AsWritten, s, a)) + (if IsProgress(s, a) then 1 else 0) <= Measure(s) + InputCost(a)
  {
    hide Measure;
    match a
    case Peer(p) => PeerDescends(s, p);
    case Owed(w) => OwedDescends(s, w);
    case Copy(c) => CopyDescends(s, c);
    case UpLoop(u) => UpDescends(s, u);
    case CliLoop(l) => CliDescends(s, l);
    case MainStep => MainDescends(s);
  }

  function ProgressSteps(s: State, run: seq<Step>): nat
    requires Runs(AsWritten, s, run)
    decreases |run|
  {
    if run == [] then 0
    else (if IsProgress(s, run[0]) then 1 else 0) + ProgressSteps(Next(AsWritten, s, run[0]), run[1..])
  }

  function InputOf(run: seq<Step>): nat {
    if run == [] then 0 else InputCost(run[0]) + InputOf(run[1..])
  }

  lemma {:induction false} RunBounded(s: State, run: seq<Step>)
    requires Inv(s) && s.up.closed && Runs(AsWritten, s, run)
    ensures ProgressSteps(s, run) + Measure(After(AsWritten, s, run)) <= Measure(s) + InputOf(run)
    ensures After(AsWritten, s, run).up.closed
    decreases |run|
  {
    hide Measure, Inv, Enabled, InputCost, IsProgress;
    if run != [] {
      StepDescends(s, run[0]);
      StepInv(s, run[0]);
      RunBounded(Next(AsWritten, s, run[0]), run[1..]);
    }
  }

  /** Termination: from the upstream's CLOSE on, a run has at most Measure(s) progress steps plus what
      the client's own later input pays for; and where a run can make no further progress,
      proxyChannel has returned, all six goroutines have ended, the upstream's stdin has ended, and every
      request from either side has been dealt with. */
  lemma TeardownEnds(s: State, run: seq<Step>)
    requires Reaches(AsWritten, s) && s.up.closed && Runs(AsWritten, s, run)
    ensures ProgressSteps(s, run) <= Measure(s) + InputOf(run)
    ensures var t := After(AsWritten, s, run);
      (forall a :: Willing(t, a) ==> !Enabled(AsWritten, t, a)) ==>
        && t.sync.main.Returned? && t.cli.loop.Done? && t.up.loop.Done?
        && (forall x :: Get(t.io, x).pc.Finished?)
        && t.io.stdinEnded && t.cli.handled == t.cli.sent && t.up.queue == []
  {
    hide Measure, Inv, Enabled, InputCost, IsProgress, Willing;
    ReachableInv(s);
    RunBounded(s, run);
    ReachesRun(s, run);
    var t := After(AsWritten, s, run);
    if !t.sync.main.Returned? { NoDeadlock(t); }
    WaitGroupsExact(t);
    ReachableInv(t);
    if t.sync.main.Returned? {
      assert t.io.out.pc.Finished? && t.io.err.pc.Finished? by { NoEarlyClose(t); MainReturned(t); }
      assert forall x :: Get(t.io, x).pc.Finished?;
      AllDealtWith(t);
    }
  }

  lemma AllDealtWith(s: State)
    requires Inv(s) && s.io.inn.pc.Finished? && s.cli.loop.Done? && s.up.loop.Done?
    ensures s.io.stdinEnded && s.cli.handled == s.cli.sent && s.up.queue == []
  {
  }

  lemma MainReturned(s: State)
    requires Inv(s) && s.sync.main.Returned?
    ensures s.sync.cliCloseSent
  {
  }

  lemma {:induction false} ReachesRun(s: State, run: seq<Step>)
    requires Reaches(AsWritten, s) && Runs(AsWritten, s, run)
    ensures Reaches(AsWritten, After(AsWritten, s, run))
    decreases |run|
  {
    hide Reaches, Enabled;
    if run != [] {
      ReachesNext(AsWritten, s, run[0]);
      ReachesRun(Next(AsWritten, s, run[0]), run[1..]);
    }
  }
}
