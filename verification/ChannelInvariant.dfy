/** What every reachable state of the proxied channel pair satisfies under the order
    that proxyChannel uses. Each conjunct is kept by every step; `Reachable` closes them over runs. */
module ChannelInvariant {
  import opened Basics
  import opened ChannelMachine

  // What the client should hear, defined on the logs alone

  function NonAgent(rs: seq<Request>): seq<Request> {
    if rs == [] then []
    else NonAgent(rs[..|rs| - 1]) + (if IsAgent(rs[|rs| - 1]) then [] else [rs[|rs| - 1]])
  }

  function Wanted(rs: seq<Request>): seq<Request> {
    if rs == [] then []
    else Wanted(rs[..|rs| - 1]) + (if rs[|rs| - 1].wantReply then [rs[|rs| - 1]] else [])
  }

  /** The answer to the last of rs when the upstream was sent the first `sent` requests that are not
      about the agent and gave `answers`: its own answer if it has one, false otherwise. */
  function AnswerToLast(rs: seq<Request>, sent: nat, answers: seq<bool>): bool
    requires rs != []
  {
    var before := NonAgent(rs[..|rs| - 1]);
    && !IsAgent(rs[|rs| - 1])
    && |before| < sent
    && |Wanted(before)| < |answers|
    && answers[|Wanted(before)|]
  }

  function Expected(rs: seq<Request>, sent: nat, answers: seq<bool>): seq<bool> {
    if rs == [] then []
    else
      Expected(rs[..|rs| - 1], sent, answers)
      + (if rs[|rs| - 1].wantReply then [AnswerToLast(rs, sent, answers)] else [])
  }

  // The conjuncts

  ghost predicate PipeOk(p: Pipe) {
    && p.delivered <= p.sent
    && (!p.failed ==> p.sent == p.delivered + p.hand + p.buffer)
    && (p.hand != [] <==> p.pc.Writing?)
    && (p.failed ==> p.pc.Copied? || p.pc.Finished?)
    && (!p.failed && (p.pc.Copied? || p.pc.Finished?) ==> p.eof && p.buffer == [])
  }

  ghost predicate PipesOk(io: Streams) {
    && PipeOk(io.out) && PipeOk(io.err) && PipeOk(io.inn) && PipeOk(io.innErr)
    && (io.stdinEnded ==> io.inn.pc.Copied? || io.inn.pc.Finished?)
    && (io.inn.pc.Finished? ==> io.stdinEnded)
  }

  ghost predicate EofOk(s: State) {
    && (s.up.closed ==> s.io.out.eof && s.io.err.eof)
    && (s.cli.gone ==> s.io.inn.eof && s.io.innErr.eof)
  }

  function Busy(p: Pipe): nat { if p.pc.Finished? then 0 else 1 }

  function LoopBusy(l: LoopPc): nat { if l.Done? then 0 else 1 }

  ghost predicate WaitGroupsOk(s: State) {
    && s.sync.fromLeft == Busy(s.io.out) + Busy(s.io.err)
    && s.sync.drainLeft == Busy(s.io.inn) + Busy(s.io.innErr) + LoopBusy(s.up.loop) + LoopBusy(s.cli.loop)
  }

  predicate InCritical(l: LoopPc) { l.Locked? || l.Await? || l.Reply? || l.Unlock? }

  ghost predicate LockOk(s: State) {
    && (s.sync.lock.ClientLoop? <==> InCritical(s.cli.loop))
    && (s.sync.lock.Main? <==> s.sync.main.CloseClient? || s.sync.main.CloseUp? || s.sync.main.ReleaseLock?)
  }

  ghost predicate UpLoopOk(u: UpSide) {
    && !u.loop.Locked? && !u.loop.Unlock?
    && (u.done <==> u.loop.Signalled? || u.loop.Done?)
    && (u.loop.Exit? || u.done ==> u.closed && u.queue == [])
    && (u.loop.Await? || u.loop.Reply? ==> u.loop.r.wantReply)
    && (!u.missed ==> u.sent == u.got + (if u.loop.Have? then [u.loop.r] else []) + u.queue)
  }

  ghost predicate UpAnswersOk(u: UpSide) {
    && u.answers == u.replies + (if u.loop.Reply? then [u.loop.ok] else [])
    && |Wanted(u.got)| == |u.answers| + (if u.loop.Await? then 1 else 0)
  }

  ghost predicate MainOk(s: State) {
    var y := s.sync;
    && (!y.main.WaitUp? ==> s.up.done)
    && (!y.main.WaitUp? && !y.main.WaitCopies? ==> y.fromLeft == 0)
    && (y.cliCloseSent <==> y.main.CloseUp? || y.upCloseSent)
    && (y.upCloseSent <==> y.main.ReleaseLock? || y.main.WaitDrain? || y.main.Returned?)
    && (y.main.Returned? ==> y.drainLeft == 0)
  }

  function Front(rs: seq<Request>): seq<Request>
    requires rs != []
  {
    rs[..|rs| - 1]
  }

  ghost predicate CliLoopOk(c: CliSide) {
    && !c.loop.Signalled?
    && (c.loop.Exit? || c.loop.Done? ==> c.queue == [] && c.gone)
    && c.sent == c.handled + (if c.loop.Have? then [c.loop.r] else []) + c.queue
    && (InCritical(c.loop) ==> c.handled != [])
    && (c.loop.Locked? || c.loop.Await? || c.loop.Reply? ==> c.loop.r == c.handled[|c.handled| - 1])
    && (c.loop.Await? || c.loop.Reply? ==> c.loop.r.wantReply)
    && (c.loop.Await? ==> !IsAgent(c.loop.r))
  }

  /** The handled requests that forwardClientRequest has forwarded or turned down. */
  function Decided(c: CliSide): seq<Request>
    requires CliLoopOk(c)
  {
    if c.loop.Locked? then Front(c.handled) else c.handled
  }

  /** The handled requests whose reply is known. */
  function Settled(c: CliSide): seq<Request>
    requires CliLoopOk(c)
  {
    if c.loop.Locked? || c.loop.Await? then Front(c.handled) else c.handled
  }

  ghost predicate ForwardOk(c: CliSide, upClosed: bool)
    requires CliLoopOk(c)
  {
    var decided := NonAgent(Decided(c));
    && c.got <= decided
    && (!upClosed || c.loop.Await? ==> c.got == decided)
    && |c.answers| <= |Wanted(c.got)|
    && (c.loop.Await? && c.pending.None? ==> |c.answers| + 1 == |Wanted(c.got)|)
    && (!upClosed && !(c.loop.Await? && c.pending.None?) ==> |c.answers| == |Wanted(c.got)|)
    && (c.pending.Some? ==> c.loop.Await? && c.answers != [] && |c.answers| == |Wanted(c.got)|)
    && (c.pending.Some? ==> c.answers[|c.answers| - 1] == c.pending.value)
  }

  ghost predicate RepliesOk(c: CliSide, y: Sync)
    requires CliLoopOk(c)
  {
    && (!y.cliCloseSent ==>
         Expected(Settled(c), |c.got|, c.answers) == c.replies + (if c.loop.Reply? then [c.loop.ok] else []))
    && (y.lock.Main? ==> y.handledAtTeardown == c.handled)
    && (y.lock.Main? || y.cliCloseSent ==>
         && y.handledAtTeardown <= c.handled
         && c.replies == Expected(y.handledAtTeardown, |c.got|, c.answers)
         && c.got <= NonAgent(y.handledAtTeardown))
  }

  ghost predicate Inv(s: State) {
    && PipesOk(s.io) && EofOk(s) && WaitGroupsOk(s) && LockOk(s)
    && UpLoopOk(s.up) && (!s.up.missed && !s.cli.gone ==> UpAnswersOk(s.up)) && MainOk(s)
    && CliLoopOk(s.cli) && ForwardOk(s.cli, s.up.closed) && RepliesOk(s.cli, s.sync)
  }

  // Facts about the reference functions

  lemma SnocRequests(rs: seq<Request>, r: Request)
    ensures NonAgent(rs + [r]) == NonAgent(rs) + (if IsAgent(r) then [] else [r])
    ensures Wanted(rs + [r]) == Wanted(rs) + (if r.wantReply then [r] else [])
  {
    assert (rs + [r])[..|rs|] == rs;
  }

  lemma SnocExpected(rs: seq<Request>, r: Request, sent: nat, answers: seq<bool>)
    ensures Expected(rs + [r], sent, answers)
         == Expected(rs, sent, answers) + (if r.wantReply then [AnswerToLast(rs + [r], sent, answers)] else [])
  {
    assert (rs + [r])[..|rs|] == rs;
  }

  lemma {:induction false} WantedGrows(rs: seq<Request>, more: seq<Request>)
    requires rs <= more
    ensures |Wanted(rs)| <= |Wanted(more)| && |NonAgent(rs)| <= |NonAgent(more)|
    ensures NonAgent(rs) <= NonAgent(more)
    decreases |more|
  {
    if rs != more {
      WantedGrows(rs, more[..|more| - 1]);
    } else {
      assert rs == more;
    }
  }

  lemma {:induction false} ExpectedLength(rs: seq<Request>, sent: nat, answers: seq<bool>)
    ensures |Expected(rs, sent, answers)| == |Wanted(rs)|
  {
    if rs != [] { ExpectedLength(rs[..|rs| - 1], sent, answers); }
  }

  /** Later requests and later answers do not change what was due for requests that the upstream
      has already been sent and, where it had to, has answered. */
  lemma {:induction false} ExpectedStable(
    rs: seq<Request>, sent: nat, answers: seq<bool>, sent': nat, answers': seq<bool>)
    requires |NonAgent(rs)| <= sent <= sent'
    requires |Wanted(NonAgent(rs))| <= |answers| && answers <= answers'
    ensures Expected(rs, sent, answers) == Expected(rs, sent', answers')
  {
    if rs != [] {
      var front, last := rs[..|rs| - 1], rs[|rs| - 1];
      WantedGrows(NonAgent(front), NonAgent(rs));
      ExpectedStable(front, sent, answers, sent', answers');
      if last.wantReply && !IsAgent(last) {
        SnocRequests(NonAgent(front), last);
      }
    }
  }
}
