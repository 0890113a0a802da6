/** The three teardown orders that the comment above proxyChannel rejects, each with the bad state
    that it reaches. The theorems of ChannelTheorems rule out all three for the order in use. */
module RejectedOrders {
  import opened ChannelMachine
  import opened ChannelTheorems

  const EXHAUSTED := Pipe([], [], [], [], true, false, Finished)

  /** Both streams from the upstream end without data and both of their copies finish. */
  lemma FinishCopies(o: Order, s: State) returns (t: State)
    requires Reaches(o, s)
    requires s.io.out == FRESH_PIPE.(eof := true) && s.io.err == FRESH_PIPE.(eof := true) && s.sync.fromLeft == 2
    ensures t == s.(io := s.io.(out := EXHAUSTED, err := EXHAUSTED), sync := s.sync.(fromLeft := 0))
    ensures Reaches(o, t)
  {
    hide Reaches;
    t := Fire(o, s, Copy(SeeEof(Stdout)));
    t := Fire(o, t, Copy(Finish(Stdout)));
    t := Fire(o, t, Copy(SeeEof(Stderr)));
    t := Fire(o, t, Copy(Finish(Stderr)));
  }

  /** Waiting for all six goroutines before closing: the upstream has closed, the client neither
      closes stdin nor sends a request, and nothing that the proxy does or is owed can happen. */
  lemma WaitForAllSixDeadlocks()
    ensures exists s ::
      && Reaches(WaitForAllSix, s) && s.up.closed && !s.sync.main.Returned?
      && (forall a :: IsProgress(s, a) ==> !Enabled(WaitForAllSix, s, a))
  {
    hide Reaches;
    ReachesNothing(WaitForAllSix);
    var s := Fire(WaitForAllSix, INITIAL, Peer(UpCloses));
    s := FinishCopies(WaitForAllSix, s);
    s := Fire(WaitForAllSix, s, UpLoop(UpEnd));
    s := Fire(WaitForAllSix, s, UpLoop(UpSignal));
    s := Fire(WaitForAllSix, s, UpLoop(UpFinish));
    forall a | IsProgress(s, a)
      ensures !Enabled(WaitForAllSix, s, a)
    {
      Stuck(s, a);
    }
  }

  lemma Stuck(s: State, a: Step)
    requires s.io == Streams(EXHAUSTED, EXHAUSTED, FRESH_PIPE, FRESH_PIPE, false)
    requires s.up.loop.Done? && s.cli.loop.Idle? && s.cli.queue == [] && !s.cli.gone
    requires s.sync.main.WaitUp? && s.sync.drainLeft == 3 && !s.sync.cliCloseSent && IsProgress(s, a)
    ensures !Enabled(WaitForAllSix, s, a)
  {
    match a
    case Peer(_) =>
    case Owed(w) =>
    case Copy(c) =>
    case UpLoop(_) =>
    case CliLoop(_) =>
    case MainStep =>
  }

  /** Closing when the byte-stream copies are done: the client is cut off with stderr undelivered,
      although no write to it has failed. */
  lemma CloseAfterByteCopiesTruncates()
    ensures exists s ::
      && Reaches(CloseAfterByteCopies, s) && s.sync.cliCloseSent
      && !s.io.err.failed && s.io.err.delivered != s.io.err.sent
  {
    hide Reaches;
    var o := CloseAfterByteCopies;
    ReachesNothing(o);
    var s := Fire(o, INITIAL, Peer(Arrive(Stderr, [7])));
    s := Fire(o, s, Peer(UpEof));
    s := Fire(o, s, Peer(ClientEof));
    s := Fire(o, s, Copy(SeeEof(Stdout)));
    s := Fire(o, s, Copy(Finish(Stdout)));
    s := Fire(o, s, Copy(SeeEof(Stdin)));
    s := Fire(o, s, Copy(CloseWrite));
    s := Fire(o, s, Copy(Finish(Stdin)));
    s := Fire(o, s, MainStep);
    s := Fire(o, s, MainStep);
    s := Fire(o, s, MainStep);
  }

  /** Closing when the upstream's streams reach EOF: both sides are closed while the upstream's
      channel is open, so a request that the client then makes is neither forwarded nor answered. */
  lemma CloseOnStreamEofKillsLiveSession(r: Request)
    requires r.wantReply
    ensures exists s ::
      && Reaches(CloseOnStreamEof, s) && s.sync.cliCloseSent && s.sync.upCloseSent && !s.up.closed
      && s.cli.handled == [r] && s.cli.loop.Idle? && s.cli.got == [] && s.cli.replies == []
  {
    hide Reaches;
    var o := CloseOnStreamEof;
    ReachesNothing(o);
    var s := Fire(o, INITIAL, Peer(UpEof));
    s := FinishCopies(o, s);
    s := Fire(o, s, MainStep);
    s := Fire(o, s, MainStep);
    s := Fire(o, s, MainStep);
    s := Fire(o, s, MainStep);
    s := Fire(o, s, MainStep);
    s := Fire(o, s, Peer(ClientRequest(r)));
    s := Fire(o, s, CliLoop(CliTake));
    s := Fire(o, s, CliLoop(CliLock));
    s := Fire(o, s, CliLoop(CliForward));
    s := Fire(o, s, CliLoop(CliReply));
    s := Fire(o, s, CliLoop(CliUnlock));
  }
}
