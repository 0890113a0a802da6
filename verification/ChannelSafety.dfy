/** Every step of the program keeps the invariant, and what follows for all runs:
    nothing is lost, nothing is closed early, and every reply is written before the close. */
module ChannelSafety {
  import opened Basics
  import opened ChannelMachine
  import opened ChannelInvariant

  // Streams

  lemma TakeKeeps(p: Pipe, k: nat)
    requires PipeOk(p) && CanTake(p, k)
    ensures PipeOk(Take(p, k))
  {
    assert p.hand == p.hand[..k] + p.hand[k..];
  }

  lemma ChunkKeeps(p: Pipe, k: nat)
    requires PipeOk(p) && p.pc.Reading? && 0 < k <= |p.buffer|
    ensures PipeOk(Chunk(p, k))
  {
    assert p.buffer == p.buffer[..k] + p.buffer[k..];
  }

  lemma ReceiveKeeps(p: Pipe, data: seq<byte>)
    requires PipeOk(p) && !p.eof
    ensures PipeOk(Receive(p, data))
  {
    if !p.failed {
      assert p.sent + data == p.delivered + p.hand + (p.buffer + data);
    }
  }

  /** Replacing one stream keeps the others; for stdin the half-close has to agree. */
  lemma PutKeeps(s: State, x: Stream, p: Pipe)
    requires PipesOk(s.io) && EofOk(s) && PipeOk(p) && p.eof == Get(s.io, x).eof
    requires x.Stdin? ==> (s.io.stdinEnded ==> p.pc.Copied? || p.pc.Finished?) && (p.pc.Finished? ==> s.io.stdinEnded)
    ensures PipesOk(Put(s.io, x, p)) && EofOk(s.(io := Put(s.io, x, p)))
  {
  }

  lemma PeerPipes(s: State, a: PeerAct)
    requires PipesOk(s.io) && EofOk(s) && PeerEnabled(s, a)
    ensures PipesOk(PeerNext(s, a).io) && EofOk(PeerNext(s, a))
  {
    match a
    case Arrive(x, data) =>
      ReceiveKeeps(Get(s.io, x), data);
      PutKeeps(s, x, Receive(Get(s.io, x), data));
    case UpTakes(x, k) =>
      TakeKeeps(Get(s.io, x), k);
      PutKeeps(s, x, Take(Get(s.io, x), k));
    case _ =>
  }

  lemma OwedPipes(s: State, a: OwedAct)
    requires PipesOk(s.io) && EofOk(s) && OwedEnabled(s, a)
    ensures PipesOk(OwedNext(s, a).io) && EofOk(OwedNext(s, a))
  {
    match a
    case ClientTakes(x, k) =>
      TakeKeeps(Get(s.io, x), k);
      PutKeeps(s, x, Take(Get(s.io, x), k));
    case ClientFails(x) => PutKeeps(s, x, Break(Get(s.io, x)));
    case ClientAnswers(_) =>
  }

  lemma CopyPipes(s: State, a: CopyAct)
    requires PipesOk(s.io) && EofOk(s) && CopyEnabled(s, a)
    ensures PipesOk(CopyNext(s, a).io) && EofOk(CopyNext(s, a))
  {
    match a
    case Read(x, k) =>
      ChunkKeeps(Get(s.io, x), k);
      PutKeeps(s, x, Chunk(Get(s.io, x), k));
    case SeeEof(x) => PutKeeps(s, x, Get(s.io, x).(pc := Copied));
    case UpWriteFails(x) => PutKeeps(s, x, Break(Get(s.io, x)));
    case CloseWrite =>
    case Finish(x) => PutKeeps(s, x, Get(s.io, x).(pc := Finished));
  }

  lemma CopyCounts(s: State, a: CopyAct)
    requires WaitGroupsOk(s) && CopyEnabled(s, a)
    ensures WaitGroupsOk(CopyNext(s, a))
  {
  }

  /** Neither peer finishes a copy. */
  lemma OutsideCounts(s: State, a: Step)
    requires WaitGroupsOk(s) && (a.Peer? || a.Owed?) && Enabled(AsWritten, s, a)
    ensures WaitGroupsOk(Next(AsWritten, s, a))
  {
    match a
    case Peer(Arrive(x, data)) => PutCounts(s.io, x, Receive(Get(s.io, x), data));
    case Peer(UpTakes(x, k)) => PutCounts(s.io, x, Take(Get(s.io, x), k));
    case Owed(ClientTakes(x, k)) => PutCounts(s.io, x, Take(Get(s.io, x), k));
    case Owed(ClientFails(x)) => PutCounts(s.io, x, Break(Get(s.io, x)));
    case _ =>
  }

  lemma PutCounts(io: Streams, x: Stream, p: Pipe)
    requires p.pc.Finished? <==> Get(io, x).pc.Finished?
    ensures var io' := Put(io, x, p);
      && Busy(io'.out) == Busy(io.out) && Busy(io'.err) == Busy(io.err)
      && Busy(io'.inn) == Busy(io.inn) && Busy(io'.innErr) == Busy(io.innErr)
  {
  }

  /** Each request loop decrements its group exactly once. */
  lemma UpCounts(s: State, a: UpAct)
    requires WaitGroupsOk(s) && UpEnabled(s, a)
    ensures WaitGroupsOk(UpNext(s, a))
  {
  }

  lemma CliCounts(s: State, a: CliAct)
    requires WaitGroupsOk(s) && CliEnabled(s, a)
    ensures WaitGroupsOk(CliNext(s, a))
  {
  }

  lemma LocksStep(s: State, a: Step)
    requires LockOk(s) && Enabled(AsWritten, s, a)
    ensures LockOk(Next(AsWritten, s, a))
  {
    match a
    case Peer(p) =>
    case Owed(w) =>
    case Copy(c) =>
    case UpLoop(u) =>
    case CliLoop(l) =>
    case MainStep =>
  }

  lemma MainKeeps(s: State)
    requires MainOk(s) && MainEnabled(AsWritten, s)
    ensures MainOk(MainNext(AsWritten, s))
  {
  }

  /** A copy that finishes was counted, so the group the main goroutine saw empty stays empty. */
  lemma CopyMain(s: State, a: CopyAct)
    requires MainOk(s) && WaitGroupsOk(s) && CopyEnabled(s, a)
    ensures MainOk(CopyNext(s, a))
  {
  }

  lemma UpMain(s: State, a: UpAct)
    requires MainOk(s) && WaitGroupsOk(s) && UpEnabled(s, a)
    ensures MainOk(UpNext(s, a))
  {
  }

  lemma CliMain(s: State, a: CliAct)
    requires MainOk(s) && WaitGroupsOk(s) && CliEnabled(s, a)
    ensures MainOk(CliNext(s, a))
  {
  }

  lemma UpLoopStep(s: State, a: UpAct)
    requires UpLoopOk(s.up) && UpEnabled(s, a)
    ensures UpLoopOk(UpNext(s, a).up)
    ensures UpAnswersOk(s.up) ==> s.up.missed || UpNext(s, a).up.missed || a.UpGiveUp? || UpAnswersOk(UpNext(s, a).up)
  {
    if a == UpForward(true) { SnocRequests(s.up.got, s.up.loop.r); }
  }

  lemma CliLoopStep(s: State, a: CliAct)
    requires CliLoopOk(s.cli) && CliEnabled(s, a)
    ensures CliLoopOk(CliNext(s, a).cli)
  {
  }

  // Replies

  lemma LockForward(s: State)
    requires CliLoopOk(s.cli) && ForwardOk(s.cli, s.up.closed) && CliEnabled(s, CliLock)
    ensures CliLoopOk(CliNext(s, CliLock).cli) && ForwardOk(CliNext(s, CliLock).cli, s.up.closed)
  {
    hide Expected, NonAgent, Wanted, AnswerToLast;
    CliLoopStep(s, CliLock);
    assert Front(s.cli.handled + [s.cli.loop.r]) == s.cli.handled;
  }

  lemma ForwardForward(s: State)
    requires CliLoopOk(s.cli) && ForwardOk(s.cli, s.up.closed) && CliEnabled(s, CliForward)
    requires s.sync.upCloseSent ==> s.up.closed
    ensures CliLoopOk(CliNext(s, CliForward).cli) && ForwardOk(CliNext(s, CliForward).cli, s.up.closed)
  {
    hide Expected, NonAgent, Wanted, AnswerToLast;
    var c := s.cli;
    CliLoopStep(s, CliForward);
    SnocRequests(Front(c.handled), c.loop.r);
    assert c.handled == Front(c.handled) + [c.loop.r];
    SnocRequests(c.got, c.loop.r);
  }

  lemma RestForward(s: State, a: CliAct)
    requires CliLoopOk(s.cli) && ForwardOk(s.cli, s.up.closed) && CliEnabled(s, a)
    requires !a.CliLock? && !a.CliForward?
    ensures CliLoopOk(CliNext(s, a).cli) && ForwardOk(CliNext(s, a).cli, s.up.closed)
  {
    hide Expected, NonAgent, Wanted, AnswerToLast;
    CliLoopStep(s, a);
  }

  lemma PeerForward(s: State, a: PeerAct)
    requires CliLoopOk(s.cli) && ForwardOk(s.cli, s.up.closed) && PeerEnabled(s, a)
    ensures CliLoopOk(PeerNext(s, a).cli) && ForwardOk(PeerNext(s, a).cli, PeerNext(s, a).up.closed)
  {
    hide Expected, NonAgent, Wanted, AnswerToLast;
  }

  // What is due after one more request, on the logs alone

  lemma DueToLast(front: seq<Request>, r: Request, sent: nat, answers: seq<bool>)
    ensures AnswerToLast(front + [r], sent, answers)
         == (!IsAgent(r) && |NonAgent(front)| < sent && |Wanted(NonAgent(front))| < |answers|
             && answers[|Wanted(NonAgent(front))|])
  {
    assert (front + [r])[..|front|] == front;
  }

  /** An agent request, or one the upstream no longer takes, is answered false. */
  lemma DueTurnedDown(front: seq<Request>, r: Request, sent: nat, answers: seq<bool>)
    requires IsAgent(r) || sent <= |NonAgent(front)|
    ensures Expected(front + [r], sent, answers)
         == Expected(front, sent, answers) + (if r.wantReply then [false] else [])
  {
    hide Expected, NonAgent, Wanted, AnswerToLast;
    SnocExpected(front, r, sent, answers);
    DueToLast(front, r, sent, answers);
  }

  lemma DueSent(front: seq<Request>, r: Request, answers: seq<bool>)
    requires |answers| == |Wanted(NonAgent(front))|
    ensures Expected(front, |NonAgent(front)| + 1, answers) == Expected(front, |NonAgent(front)|, answers)
    ensures !r.wantReply ==>
      Expected(front + [r], |NonAgent(front)| + 1, answers) == Expected(front, |NonAgent(front)|, answers)
  {
    hide Expected, NonAgent, Wanted, AnswerToLast;
    ExpectedStable(front, |NonAgent(front)|, answers, |NonAgent(front)| + 1, answers);
    SnocExpected(front, r, |NonAgent(front)| + 1, answers);
  }

  lemma DueAnswered(front: seq<Request>, r: Request, answers: seq<bool>)
    requires !IsAgent(r) && r.wantReply && |answers| == |Wanted(NonAgent(front))| + 1
    ensures Expected(front + [r], |NonAgent(front)| + 1, answers)
         == Expected(front, |NonAgent(front)| + 1, answers) + [answers[|answers| - 1]]
  {
    hide Expected, NonAgent, Wanted, AnswerToLast;
    SnocExpected(front, r, |NonAgent(front)| + 1, answers);
    DueToLast(front, r, |NonAgent(front)| + 1, answers);
  }

  lemma DueGivenUp(front: seq<Request>, r: Request, answers: seq<bool>)
    requires !IsAgent(r) && r.wantReply && |answers| == |Wanted(NonAgent(front))|
    ensures Expected(front + [r], |NonAgent(front)| + 1, answers)
         == Expected(front, |NonAgent(front)| + 1, answers) + [false]
  {
    hide Expected, NonAgent, Wanted, AnswerToLast;
    SnocExpected(front, r, |NonAgent(front)| + 1, answers);
    DueToLast(front, r, |NonAgent(front)| + 1, answers);
  }

  /** What the teardown order and the lock give the reply bookkeeping. */
  ghost predicate ReplyContext(s: State) {
    && CliLoopOk(s.cli) && ForwardOk(s.cli, s.up.closed) && RepliesOk(s.cli, s.sync) && LockOk(s) && MainOk(s)
    && (s.up.done ==> s.up.closed)
  }

  lemma TurnDownReply(s: State)
    requires ReplyContext(s) && CliEnabled(s, CliForward) && (IsAgent(s.cli.loop.r) || UpstreamUnwritable(s))
    ensures CliLoopOk(CliNext(s, CliForward).cli) && RepliesOk(CliNext(s, CliForward).cli, s.sync)
  {
    hide Expected, NonAgent, Wanted, AnswerToLast;
    var c, r := s.cli, s.cli.loop.r;
    assert c.handled == Front(c.handled) + [r];
    CliLoopStep(s, CliForward);
    DueTurnedDown(Front(c.handled), r, |c.got|, c.answers);
  }

  lemma SendReply(s: State)
    requires ReplyContext(s) && CliEnabled(s, CliForward) && !IsAgent(s.cli.loop.r) && !UpstreamUnwritable(s)
    ensures CliLoopOk(CliNext(s, CliForward).cli) && RepliesOk(CliNext(s, CliForward).cli, s.sync)
  {
    hide Expected, NonAgent, Wanted, AnswerToLast;
    var c, r := s.cli, s.cli.loop.r;
    assert c.handled == Front(c.handled) + [r];
    CliLoopStep(s, CliForward);
    DueSent(Front(c.handled), r, c.answers);
  }

  lemma AnswerReply(s: State, a: CliAct)
    requires ReplyContext(s) && CliEnabled(s, a) && (a.CliHear? || a.CliGiveUp?)
    ensures CliLoopOk(CliNext(s, a).cli) && RepliesOk(CliNext(s, a).cli, s.sync)
  {
    hide Expected, NonAgent, Wanted, AnswerToLast;
    var c, r := s.cli, s.cli.loop.r;
    var front := Front(c.handled);
    assert c.handled == front + [r];
    CliLoopStep(s, a);
    SnocRequests(front, r);
    SnocRequests(NonAgent(front), r);
    if a.CliHear? {
      DueAnswered(front, r, c.answers);
    } else {
      DueGivenUp(front, r, c.answers);
    }
  }

  lemma LockReply(s: State)
    requires ReplyContext(s) && CliEnabled(s, CliLock)
    ensures CliLoopOk(CliNext(s, CliLock).cli) && RepliesOk(CliNext(s, CliLock).cli, CliNext(s, CliLock).sync)
  {
    hide Expected, NonAgent, Wanted, AnswerToLast;
    CliLoopStep(s, CliLock);
    assert Front(s.cli.handled + [s.cli.loop.r]) == s.cli.handled;
  }

  lemma RestReply(s: State, a: CliAct)
    requires ReplyContext(s) && CliEnabled(s, a)
    requires a.CliTake? || a.CliReply? || a.CliUnlock? || a.CliEnd? || a.CliFinish?
    ensures CliLoopOk(CliNext(s, a).cli) && RepliesOk(CliNext(s, a).cli, CliNext(s, a).sync)
  {
    hide Expected, NonAgent, Wanted, AnswerToLast;
    CliLoopStep(s, a);
  }

  /** An answer that arrives is due to a request that was still waiting for it. */
  lemma PeerReply(s: State, a: PeerAct)
    requires ReplyContext(s) && PeerEnabled(s, a)
    ensures CliLoopOk(PeerNext(s, a).cli) && RepliesOk(PeerNext(s, a).cli, s.sync)
  {
    hide Expected, NonAgent, Wanted, AnswerToLast;
    if a.UpAnswers? {
      var c := s.cli;
      var front := Front(c.handled);
      assert c.handled == front + [c.loop.r];
      SnocRequests(front, c.loop.r);
      SnocRequests(NonAgent(front), c.loop.r);
      ExpectedStable(front, |c.got|, c.answers, |c.got|, c.answers + [a.ok]);
    }
  }

  lemma MainReply(s: State)
    requires ReplyContext(s) && MainEnabled(AsWritten, s)
    ensures RepliesOk(s.cli, MainNext(AsWritten, s).sync)
  {
    hide Expected, NonAgent, Wanted, AnswerToLast;
    if s.sync.main.WaitLock? { WantedGrows(s.cli.handled, s.cli.handled); }
  }

  // The invariant over runs

  lemma PeerInv(s: State, a: PeerAct)
    requires Inv(s) && PeerEnabled(s, a)
    ensures Inv(PeerNext(s, a))
  {
    hide Expected, NonAgent, Wanted, AnswerToLast, PipeOk;
    PeerPipes(s, a);
    OutsideCounts(s, Peer(a));
    PeerForward(s, a);
    PeerReply(s, a);
  }

  lemma OwedInv(s: State, a: OwedAct)
    requires Inv(s) && OwedEnabled(s, a)
    ensures Inv(OwedNext(s, a))
  {
    hide Expected, NonAgent, Wanted, AnswerToLast, PipeOk;
    OwedPipes(s, a);
    OutsideCounts(s, Owed(a));
  }

  lemma CopyInv(s: State, a: CopyAct)
    requires Inv(s) && CopyEnabled(s, a)
    ensures Inv(CopyNext(s, a))
  {
    hide Expected, NonAgent, Wanted, AnswerToLast, PipeOk;
    CopyPipes(s, a);
    CopyCounts(s, a);
    CopyMain(s, a);
  }

  lemma UpInv(s: State, a: UpAct)
    requires Inv(s) && UpEnabled(s, a)
    ensures Inv(UpNext(s, a))
  {
    hide Expected, NonAgent, Wanted, AnswerToLast, PipeOk;
    UpLoopStep(s, a);
    UpCounts(s, a);
    UpMain(s, a);
  }

  lemma CliInv(s: State, a: CliAct)
    requires Inv(s) && CliEnabled(s, a)
    ensures Inv(CliNext(s, a))
  {
    hide Expected, NonAgent, Wanted, AnswerToLast, PipeOk, ForwardOk, RepliesOk;
    CliCounts(s, a);
    CliMain(s, a);
    LocksStep(s, CliLoop(a));
    CliLoopStep(s, a);
    CliForwardInv(s, a);
    CliRepliesInv(s, a);
  }

  lemma CliForwardInv(s: State, a: CliAct)
    requires Inv(s) && CliEnabled(s, a)
    ensures CliLoopOk(CliNext(s, a).cli) && ForwardOk(CliNext(s, a).cli, s.up.closed)
  {
    hide Expected, NonAgent, Wanted, AnswerToLast, PipeOk;
    match a
    case CliLock => LockForward(s);
    case CliForward => ForwardForward(s);
    case _ => RestForward(s, a);
  }

  lemma CliRepliesInv(s: State, a: CliAct)
    requires Inv(s) && CliEnabled(s, a)
    ensures CliLoopOk(CliNext(s, a).cli) && RepliesOk(CliNext(s, a).cli, CliNext(s, a).sync)
  {
    hide Expected, NonAgent, Wanted, AnswerToLast, PipeOk;
    match a
    case CliLock => LockReply(s);
    case CliForward => if IsAgent(s.cli.loop.r) || UpstreamUnwritable(s) { TurnDownReply(s); } else { SendReply(s); }
    case CliHear => AnswerReply(s, a);
    case CliGiveUp => AnswerReply(s, a);
    case _ => RestReply(s, a);
  }

  lemma MainInv(s: State)
    requires Inv(s) && MainEnabled(AsWritten, s)
    ensures Inv(MainNext(AsWritten, s))
  {
    hide Expected, NonAgent, Wanted, AnswerToLast, PipeOk;
    MainKeeps(s);
    MainReply(s);
  }

  lemma StepInv(s: State, a: Step)
    requires Inv(s) && Enabled(AsWritten, s, a)
    ensures Inv(Next(AsWritten, s, a))
  {
    hide Inv;
    match a
    case Peer(p) => PeerInv(s, p);
    case Owed(w) => OwedInv(s, w);
    case Copy(c) => CopyInv(s, c);
    case UpLoop(u) => UpInv(s, u);
    case CliLoop(l) => CliInv(s, l);
    case MainStep => MainInv(s);
  }

  lemma {:induction false} RunInv(s: State, run: seq<Step>)
    requires Inv(s) && Runs(AsWritten, s, run)
    ensures Inv(After(AsWritten, s, run))
    decreases |run|
  {
    hide Inv;
    if run != [] {
      StepInv(s, run[0]);
      RunInv(Next(AsWritten, s, run[0]), run[1..]);
    }
  }

  lemma InitialInv()
    ensures Inv(INITIAL)
  {
  }
}
