/** What a run brings to whom, told by its labels alone: the peers' own sends, takes and answers, and the
    labels at which a write or a request fails. */
module ChannelRuns {
  import opened Basics
  import opened ChannelMachine
  import opened ChannelInvariant
  import opened ChannelSafety
  import opened ChannelTheorems

  function WrittenAt(a: Step, x: Stream): seq<byte> {
    match a
    case Peer(Arrive(y, data)) => if y == x then data else []
    case _ => []
  }

  function TakenAt(a: Step, x: Stream): nat {
    match a
    case Owed(ClientTakes(y, k)) => if y == x then k else 0
    case Peer(UpTakes(y, k)) => if y == x then k else 0
    case _ => 0
  }

  /** All that the source of stream x wrote. */
  function Written(run: seq<Step>, x: Stream): seq<byte> {
    if run == [] then [] else WrittenAt(run[0], x) + Written(run[1..], x)
  }

  /** How many bytes of stream x its sink took. */
  function Taken(run: seq<Step>, x: Stream): nat {
    if run == [] then 0 else TakenAt(run[0], x) + Taken(run[1..], x)
  }

  function UpRequestAt(a: Step): seq<Request> { if a.Peer? && a.p.UpRequest? then [a.p.r] else [] }

  function ClientRequestAt(a: Step): seq<Request> { if a.Peer? && a.p.ClientRequest? then [a.p.r] else [] }

  function UpAnswerAt(a: Step): seq<bool> { if a.Peer? && a.p.UpAnswers? then [a.p.ok] else [] }

  function ClientAnswerAt(a: Step): seq<bool> { if a.Owed? && a.w.ClientAnswers? then [a.w.ok] else [] }

  /** What each label contributes, in the order of the run. */
  function Collect<T>(at: Step -> seq<T>, run: seq<Step>): seq<T> {
    if run == [] then [] else at(run[0]) + Collect(at, run[1..])
  }

  function UpRequests(run: seq<Step>): seq<Request> { Collect(UpRequestAt, run) }

  function ClientRequests(run: seq<Step>): seq<Request> { Collect(ClientRequestAt, run) }

  function UpAnswersIn(run: seq<Step>): seq<bool> { Collect(UpAnswerAt, run) }

  function ClientAnswersIn(run: seq<Step>): seq<bool> { Collect(ClientAnswerAt, run) }

  predicate WriteFailsAt(a: Step, x: Stream) { a == Owed(ClientFails(x)) || a == Copy(UpWriteFails(x)) }

  predicate RequestFailsAt(a: Step) { a == UpLoop(UpForward(false)) }

  /** No write of stream x to its sink fails in the run. */
  predicate NoWriteFails(run: seq<Step>, x: Stream) { forall i :: 0 <= i < |run| ==> !WriteFailsAt(run[i], x) }

  /** No request to the client fails in the run. */
  predicate NoRequestFails(run: seq<Step>) { forall i :: 0 <= i < |run| ==> !RequestFailsAt(run[i]) }

  // The state remembers the run

  lemma CopyBytes(s: State, a: CopyAct, x: Stream)
    requires CopyEnabled(s, a)
    ensures var p, q := Get(s.io, x), Get(CopyNext(s, a).io, x);
      && q.sent == p.sent && q.delivered == p.delivered
      && (q.failed ==> p.failed || WriteFailsAt(Copy(a), x))
  {
  }

  lemma StepBytes(s: State, a: Step, x: Stream)
    requires Enabled(AsWritten, s, a)
    ensures var p, q := Get(s.io, x), Get(Next(AsWritten, s, a).io, x);
      && q.sent == p.sent + WrittenAt(a, x)
      && |q.delivered| == |p.delivered| + TakenAt(a, x)
      && (q.failed ==> p.failed || WriteFailsAt(a, x))
  {
    match a
    case Copy(c) => CopyBytes(s, c, x);
    case CliLoop(l) => hide CliEnabled; assert CliNext(s, l).io == s.io;
    case UpLoop(u) => hide UpEnabled; assert UpNext(s, u).io == s.io;
    case _ =>
  }

  lemma StepRequests(s: State, a: Step)
    requires Enabled(AsWritten, s, a)
    ensures var t := Next(AsWritten, s, a);
      && t.up.sent == s.up.sent + UpRequestAt(a) && t.cli.sent == s.cli.sent + ClientRequestAt(a)
      && t.cli.answers == s.cli.answers + UpAnswerAt(a) && t.up.answers == s.up.answers + ClientAnswerAt(a)
      && (t.up.missed ==> s.up.missed || RequestFailsAt(a))
  {
  }

  lemma {:induction false} RunBytes(s: State, run: seq<Step>, x: Stream)
    requires Runs(AsWritten, s, run)
    ensures var p, q := Get(s.io, x), Get(After(AsWritten, s, run).io, x);
      && q.sent == p.sent + Written(run, x)
      && |q.delivered| == |p.delivered| + Taken(run, x)
      && (q.failed && NoWriteFails(run, x) ==> p.failed)
    decreases |run|
  {
    if run != [] {
      StepBytes(s, run[0], x);
      hide Next, Enabled, WrittenAt, TakenAt, WriteFailsAt, Get;
      RunBytes(Next(AsWritten, s, run[0]), run[1..], x);
    }
  }

  lemma {:induction false} RunRequests(s: State, run: seq<Step>)
    requires Runs(AsWritten, s, run)
    ensures var t := After(AsWritten, s, run);
      && t.up.sent == s.up.sent + UpRequests(run) && t.cli.sent == s.cli.sent + ClientRequests(run)
      && t.cli.answers == s.cli.answers + UpAnswersIn(run) && t.up.answers == s.up.answers + ClientAnswersIn(run)
      && (t.up.missed && NoRequestFails(run) ==> s.up.missed)
    decreases |run|
  {
    if run != [] {
      StepRequests(s, run[0]);
      hide Next, Enabled, UpRequestAt, ClientRequestAt, UpAnswerAt, ClientAnswerAt, RequestFailsAt;
      RunRequests(Next(AsWritten, s, run[0]), run[1..]);
    }
  }

  // What arrives

  /** At any moment of any run the sink of a stream has exactly as many bytes as it took, in the order
      written and from the first one on. */
  lemma DeliveredIsTaken(run: seq<Step>, x: Stream)
    requires Runs(AsWritten, INITIAL, run)
    ensures var p := Get(After(AsWritten, INITIAL, run).io, x);
      p.delivered <= Written(run, x) && |p.delivered| == Taken(run, x)
  {
    var s := After(AsWritten, INITIAL, run);
    RunBytes(INITIAL, run, x);
    assert [] + Written(run, x) == Written(run, x);
    InitialInv();
    RunInv(INITIAL, run);
    assert PipeOk(Get(s.io, x));
  }

  /** At the first close the client holds all that the upstream ever wrote to either stream and every
      request that it ever sent, in order, unless that very write or request failed in the run. */
  lemma EverythingArrives(run: seq<Step>)
    requires Runs(AsWritten, INITIAL, run)
    ensures var s := After(AsWritten, INITIAL, run);
      s.sync.cliCloseSent || s.sync.upCloseSent ==>
        && (NoWriteFails(run, Stdout) ==> s.io.out.delivered == Written(run, Stdout))
        && (NoWriteFails(run, Stderr) ==> s.io.err.delivered == Written(run, Stderr))
        && (NoRequestFails(run) ==> s.up.got == UpRequests(run))
  {
    var s := After(AsWritten, INITIAL, run);
    RunBytes(INITIAL, run, Stdout);
    RunBytes(INITIAL, run, Stderr);
    RunRequests(INITIAL, run);
    NothingLost(s);
  }

  /** The upstream sees the end of stdin only behind all that the client wrote, unless such a write failed. */
  lemma StdinArrives(run: seq<Step>)
    requires Runs(AsWritten, INITIAL, run)
    ensures var s := After(AsWritten, INITIAL, run);
      s.io.stdinEnded && NoWriteFails(run, Stdin) ==> s.io.inn.delivered == Written(run, Stdin)
  {
    RunBytes(INITIAL, run, Stdin);
    StdinEndsLast(After(AsWritten, INITIAL, run));
  }

  /** Whoever asks is answered from what the other side really said: the replies before the close are those
      due by the requests the client sent and the answers the upstream gave in this run; and while no
      request fails and the client stays, its own answers go back as they were given. */
  lemma AnswersArrive(run: seq<Step>)
    requires Runs(AsWritten, INITIAL, run)
    ensures var s := After(AsWritten, INITIAL, run);
      && s.cli.got <= NonAgent(ClientRequests(run))
      && (s.sync.cliCloseSent ==>
            && s.sync.handledAtTeardown <= ClientRequests(run)
            && s.cli.replies == Expected(s.sync.handledAtTeardown, |s.cli.got|, UpAnswersIn(run)))
      && (NoRequestFails(run) && !s.cli.gone && s.up.loop.Idle? ==> s.up.replies == ClientAnswersIn(run))
  {
    var s := After(AsWritten, INITIAL, run);
    RunRequests(INITIAL, run);
    assert [] + ClientRequests(run) == ClientRequests(run) && [] + UpAnswersIn(run) == UpAnswersIn(run);
    assert [] + ClientAnswersIn(run) == ClientAnswersIn(run);
    hide Expected, NonAgent, ClientRequests, UpAnswersIn, ClientAnswersIn, NoRequestFails;
    RepliesComplete(s);
    if !s.up.missed && !s.cli.gone { UpstreamHearsAnswers(s); }
  }

  // What the upstream is told of its own requests

  /** The replies due by one label: the client's answer, and false for a request that could not be delivered
      or whose answer can no longer come. */
  function UpReplyAt(s: State, a: Step): seq<bool>
    requires Enabled(AsWritten, s, a)
  {
    match a
    case Owed(ClientAnswers(ok)) => [ok]
    case UpLoop(UpForward(delivered)) => if !delivered && s.up.loop.r.wantReply then [false] else []
    case UpLoop(UpGiveUp) => [false]
    case _ => []
  }

  function UpRepliesDue(s: State, run: seq<Step>): seq<bool>
    requires Runs(AsWritten, s, run)
    decreases |run|
  {
    if run == [] then []
    else UpReplyAt(s, run[0]) + UpRepliesDue(Next(AsWritten, s, run[0]), run[1..])
  }

  function InHand(u: UpSide): seq<bool> { if u.loop.Reply? then [u.loop.ok] else [] }

  /** One reply has been made for each wanted request taken, but for the one that is being dealt with. */
  ghost predicate Served(u: UpSide, taken: seq<Request>) {
    && u.sent == taken + u.queue
    && !u.loop.Locked? && !u.loop.Unlock?
    && (u.loop.Await? || u.loop.Reply? ==> u.loop.r.wantReply)
    && |Wanted(taken)|
         == |u.replies| + (if u.loop.Await? || u.loop.Reply? || (u.loop.Have? && u.loop.r.wantReply) then 1 else 0)
  }

  /** What one label adds to the requests taken. */
  function TakenNow(s: State, a: Step): seq<Request>
    requires Enabled(AsWritten, s, a)
  {
    if a == UpLoop(UpTake) then [s.up.queue[0]] else []
  }

  lemma UpServes(s: State, u: UpAct, taken: seq<Request>)
    requires Served(s.up, taken) && UpEnabled(s, u)
    ensures Served(UpNext(s, u).up, taken + TakenNow(s, UpLoop(u)))
    ensures UpNext(s, u).up.replies + InHand(UpNext(s, u).up)
         == s.up.replies + InHand(s.up) + UpReplyAt(s, UpLoop(u))
  {
    if u.UpTake? { SnocRequests(taken, s.up.queue[0]); }
    hide Wanted;
    assert taken + [] == taken;
  }

  /** The other steps leave the loop and its replies alone, but for an answer of the client. */
  lemma OthersServe(s: State, a: Step)
    requires Enabled(AsWritten, s, a) && !a.UpLoop?
    ensures var u, v := s.up, Next(AsWritten, s, a).up;
      && v.replies == u.replies
      && (v.loop == u.loop || (u.loop.Await? && v.loop.Reply? && v.loop.r == u.loop.r))
      && InHand(v) == InHand(u) + UpReplyAt(s, a)
      && exists more :: v.sent == u.sent + more && v.queue == u.queue + more
  {
    var u, v := s.up, Next(AsWritten, s, a).up;
    var more := if a.Peer? && a.p.UpRequest? then [a.p.r] else [];
    assert v.sent == u.sent + more && v.queue == u.queue + more;
  }

  lemma StepServes(s: State, a: Step, taken: seq<Request>)
    requires Served(s.up, taken) && Enabled(AsWritten, s, a)
    ensures Served(Next(AsWritten, s, a).up, taken + TakenNow(s, a))
    ensures Next(AsWritten, s, a).up.replies + InHand(Next(AsWritten, s, a).up)
         == s.up.replies + InHand(s.up) + UpReplyAt(s, a)
  {
    if a.UpLoop? {
      UpServes(s, a.u, taken);
      hide Served, InHand, UpReplyAt;
    } else {
      OthersServe(s, a);
      var u, v := s.up, Next(AsWritten, s, a).up;
      assert taken + TakenNow(s, a) == taken;
      hide Next, Enabled, UpReplyAt, InHand, TakenNow, Wanted;
      var more :| v.sent == u.sent + more && v.queue == u.queue + more;
      assert taken + u.queue + more == taken + (u.queue + more);
    }
  }

  lemma {:induction false} RunServes(s: State, run: seq<Step>, taken: seq<Request>) returns (after: seq<Request>)
    requires Served(s.up, taken) && Runs(AsWritten, s, run)
    ensures Served(After(AsWritten, s, run).up, after)
    ensures After(AsWritten, s, run).up.replies + InHand(After(AsWritten, s, run).up)
         == s.up.replies + InHand(s.up) + UpRepliesDue(s, run)
    decreases |run|
  {
    after := taken;
    if run != [] {
      StepServes(s, run[0], taken);
      hide Next, Enabled, Served, UpReplyAt, InHand, TakenNow;
      after := RunServes(Next(AsWritten, s, run[0]), run[1..], taken + TakenNow(s, run[0]));
    }
  }

  /** Whenever the upstream's request loop is between requests, each request it took that wants a reply has
      had exactly one, and these are the replies due by the run, in order. */
  lemma UpstreamServed(run: seq<Step>) returns (taken: seq<Request>)
    requires Runs(AsWritten, INITIAL, run)
    ensures var u := After(AsWritten, INITIAL, run).up;
      && UpRequests(run) == taken + u.queue
      && (!u.loop.Have? && !u.loop.Await? && !u.loop.Reply? ==>
            |u.replies| == |Wanted(taken)| && u.replies == UpRepliesDue(INITIAL, run))
  {
    assert Served(INITIAL.up, []) && InHand(INITIAL.up) == [];
    taken := RunServes(INITIAL, run, []);
    RunRequests(INITIAL, run);
    var u := After(AsWritten, INITIAL, run).up;
    assert [] + UpRequests(run) == UpRequests(run);
    assert [] + [] + UpRepliesDue(INITIAL, run) == UpRepliesDue(INITIAL, run);
    assert !u.loop.Reply? ==> u.replies + InHand(u) == u.replies;
  }

  // Sessions of every content exist

  /** A stream is carried over in one piece. */
  lemma CarryStream(s: State, x: Stream, data: seq<byte>) returns (t: State)
    requires Reaches(AsWritten, s) && Get(s.io, x) == FRESH_PIPE
    requires if FromUpstream(x) then !ClientUnwritable(s) else !UpstreamUnwritable(s)
    ensures Reaches(AsWritten, t)
    ensures t == s.(io := Put(s.io, x, FRESH_PIPE.(sent := data, delivered := data)))
  {
    hide Reaches;
    t := s;
    if data != [] {
      t := Fire(AsWritten, t, Peer(Arrive(x, data)));
      t := Fire(AsWritten, t, Copy(Read(x, |data|)));
      t := Fire(AsWritten, t, if FromUpstream(x) then Owed(ClientTakes(x, |data|)) else Peer(UpTakes(x, |data|)));
    }
  }

  ghost predicate UpAtRest(u: UpSide) { u.loop.Idle? && u.queue == [] && !u.closed && !u.done && !u.missed }

  lemma {:induction false} CarryUpRequests(s: State, rs: seq<Request>) returns (t: State)
    requires Reaches(AsWritten, s) && UpAtRest(s.up) && !ClientUnwritable(s)
    ensures Reaches(AsWritten, t) && UpAtRest(t.up)
    ensures t.up.got == s.up.got + rs && t.io == s.io && t.cli == s.cli && t.sync == s.sync
    decreases |rs|
  {
    hide Reaches;
    t := s;
    if rs != [] {
      t := Fire(AsWritten, t, Peer(UpRequest(rs[0])));
      t := Fire(AsWritten, t, UpLoop(UpTake));
      t := Fire(AsWritten, t, UpLoop(UpForward(true)));
      if rs[0].wantReply {
        t := Fire(AsWritten, t, Owed(ClientAnswers(true)));
        t := Fire(AsWritten, t, UpLoop(UpReply));
      }
      t := CarryUpRequests(t, rs[1..]);
      assert s.up.got + [rs[0]] + rs[1..] == s.up.got + rs;
    }
  }

  ghost predicate ClientAtRest(s: State) {
    && s.cli.loop.Idle? && s.cli.queue == [] && !s.cli.gone && s.cli.pending.None?
    && s.sync.lock.Free? && !s.sync.cliCloseSent && !UpstreamUnwritable(s)
  }

  lemma {:induction false} CarryClientRequests(s: State, rs: seq<Request>) returns (t: State)
    requires Reaches(AsWritten, s) && ClientAtRest(s)
    ensures Reaches(AsWritten, t) && ClientAtRest(t)
    ensures t.cli.handled == s.cli.handled + rs && t.io == s.io && t.up == s.up && t.sync == s.sync
    decreases |rs|
  {
    hide Reaches;
    t := s;
    if rs != [] {
      t := CarryClientRequest(t, rs[0]);
      t := CarryClientRequests(t, rs[1..]);
      assert s.cli.handled + [rs[0]] + rs[1..] == s.cli.handled + rs;
    }
  }

  lemma CarryClientRequest(s: State, r: Request) returns (t: State)
    requires Reaches(AsWritten, s) && ClientAtRest(s)
    ensures Reaches(AsWritten, t) && ClientAtRest(t)
    ensures t.cli.handled == s.cli.handled + [r] && t.io == s.io && t.up == s.up && t.sync == s.sync
  {
    hide Reaches;
    t := Fire(AsWritten, s, Peer(ClientRequest(r)));
    t := Fire(AsWritten, t, CliLoop(CliTake));
    t := Fire(AsWritten, t, CliLoop(CliLock));
    t := Fire(AsWritten, t, CliLoop(CliForward));
    if t.cli.loop.Await? {
      t := Fire(AsWritten, t, Peer(UpAnswers(true)));
      t := Fire(AsWritten, t, CliLoop(CliHear));
    }
    if t.cli.loop.Reply? {
      t := Fire(AsWritten, t, CliLoop(CliReply));
    }
    t := Fire(AsWritten, t, CliLoop(CliUnlock));
  }

  ghost predicate Untouched(p: Pipe) { p.pc.Reading? && p.buffer == [] && p.hand == [] && !p.failed }

  function Ended(io: Streams, x: Stream): Streams {
    Put(if x.Stdin? then io.(stdinEnded := true) else io, x, Get(io, x).(pc := Finished))
  }

  lemma EndStream(s: State, x: Stream) returns (t: State)
    requires Reaches(AsWritten, s) && Get(s.io, x).pc.Reading? && Get(s.io, x).buffer == [] && Get(s.io, x).eof
    requires x.Stdin? ==> !s.io.stdinEnded
    ensures Reaches(AsWritten, t)
    ensures t == s.(io := Ended(s.io, x),
                    sync := if FromUpstream(x) then s.sync.(fromLeft := s.sync.fromLeft - 1)
                            else s.sync.(drainLeft := s.sync.drainLeft - 1))
  {
    hide Reaches;
    t := Fire(AsWritten, s, Copy(SeeEof(x)));
    if x.Stdin? { t := Fire(AsWritten, t, Copy(CloseWrite)); }
    t := Fire(AsWritten, t, Copy(Finish(x)));
  }

  /** The upstream's CLOSE, the end of its request loop and of both copies from it. */
  lemma EndUpstream(s: State) returns (t: State)
    requires Reaches(AsWritten, s) && UpAtRest(s.up)
    requires Untouched(s.io.out) && Untouched(s.io.err)
    ensures Reaches(AsWritten, t)
    ensures t.io == Ended(Ended(UpstreamEof(s.io), Stdout), Stderr) && t.cli == s.cli
    ensures t.up.loop.Done? && t.up.done && t.up.got == s.up.got && !t.up.missed
    ensures t.sync == s.sync.(fromLeft := s.sync.fromLeft - 2, drainLeft := s.sync.drainLeft - 1)
  {
    hide Reaches;
    t := Fire(AsWritten, s, Peer(UpCloses));
    t := Fire(AsWritten, t, UpLoop(UpEnd));
    t := Fire(AsWritten, t, UpLoop(UpSignal));
    t := Fire(AsWritten, t, UpLoop(UpFinish));
    hide Ended;
    t := EndStream(t, Stdout);
    assert Get(t.io, Stderr) == Get(UpstreamEof(s.io), Stderr) by { OtherStream(UpstreamEof(s.io)); }
    t := EndStream(t, Stderr);
  }

  lemma OtherStream(io: Streams)
    ensures Ended(io, Stdout).err == io.err && Ended(io, Stdout).stdinEnded == io.stdinEnded
  {
  }

  /** The main goroutine from the first wait to the last. */
  lemma CloseBoth(s: State) returns (t: State)
    requires Reaches(AsWritten, s) && s.sync.main.WaitUp? && s.up.done && s.sync.fromLeft == 0 && s.sync.lock.Free?
    ensures Reaches(AsWritten, t) && t.io == s.io && t.up == s.up && t.cli == s.cli
    ensures t.sync.main.WaitDrain? && t.sync.cliCloseSent && t.sync.drainLeft == s.sync.drainLeft
  {
    hide Reaches;
    t := Fire(AsWritten, s, MainStep);
    t := Fire(AsWritten, t, MainStep);
    t := Fire(AsWritten, t, MainStep);
    t := Fire(AsWritten, t, MainStep);
    t := Fire(AsWritten, t, MainStep);
    t := Fire(AsWritten, t, MainStep);
  }

  /** The client's CLOSE, the end of its request loop and of both copies from it. */
  lemma EndClient(s: State) returns (t: State)
    requires Reaches(AsWritten, s) && s.sync.main.WaitDrain? && s.sync.drainLeft == 3
    requires s.cli.loop.Idle? && s.cli.queue == [] && !s.cli.gone && !s.io.stdinEnded
    requires Untouched(s.io.inn) && Untouched(s.io.innErr)
    ensures Reaches(AsWritten, t) && t.sync.main.Returned?
    ensures t.io == Ended(Ended(ClientEnd(s.io), Stdin), StdinErr) && t.up == s.up && t.cli.handled == s.cli.handled
  {
    hide Reaches;
    t := Fire(AsWritten, s, Peer(ClientCloses));
    t := EndStream(t, Stdin);
    t := EndStream(t, StdinErr);
    t := Fire(AsWritten, t, CliLoop(CliEnd));
    t := Fire(AsWritten, t, CliLoop(CliFinish));
    t := Fire(AsWritten, t, MainStep);
  }

  /** From a session at rest to the return. */
  lemma CloseSession(s: State) returns (t: State)
    requires Reaches(AsWritten, s) && UpAtRest(s.up) && ClientAtRest(s) && !s.io.stdinEnded
    requires Untouched(s.io.out) && Untouched(s.io.err) && Untouched(s.io.inn) && Untouched(s.io.innErr)
    requires s.sync.main.WaitUp? && s.sync.fromLeft == 2 && s.sync.drainLeft == 4
    ensures Reaches(AsWritten, t) && t.sync.main.Returned?
    ensures t.io.out.delivered == s.io.out.delivered && t.io.err.delivered == s.io.err.delivered
    ensures t.io.inn.delivered == s.io.inn.delivered && forall x :: !Get(t.io, x).failed
    ensures t.up.got == s.up.got && !t.up.missed && t.cli.handled == s.cli.handled
  {
    hide Reaches;
    t := EndUpstream(s);
    t := CloseBoth(t);
    t := EndClient(t);
  }

  /** The promises are not empty: whatever the upstream writes to both streams, whatever the client writes,
      and whatever requests either side sends, there is a run without any failure in which all of it
      arrives and proxyChannel returns. */
  lemma SessionExists(
    out: seq<byte>, err: seq<byte>, inn: seq<byte>, upRequests: seq<Request>, clientRequests: seq<Request>)
    ensures exists s ::
      && Reaches(AsWritten, s) && s.sync.main.Returned?
      && s.io.out.delivered == out && s.io.err.delivered == err && s.io.inn.delivered == inn
      && s.up.got == upRequests && s.cli.handled == clientRequests
      && (forall x :: !Get(s.io, x).failed) && !s.up.missed
  {
    ReachesNothing(AsWritten);
    var s := CarryStream(INITIAL, Stdout, out);
    s := CarryStream(s, Stderr, err);
    s := CarryStream(s, Stdin, inn);
    s := CarryUpRequests(s, upRequests);
    s := CarryClientRequests(s, clientRequests);
    hide Reaches;
    s := CloseSession(s);
    assert [] + upRequests == upRequests && [] + clientRequests == clientRequests;
  }
}
