/** The proxied channel pair of internal/sshproxy/forward.go as a transition system.

    Six goroutines and the main one share two wait groups, one done-channel and one mutex.
    Every label of `Step` is one atomic action of one of them, or of one of the two SSH peers.
    `Enabled` and `Next` are the whole program; a run is a sequence of labels.

    What is assumed of the SSH library and of the peers is written in the guards:
    - a peer's CLOSE ends both of its byte streams and its request channel, but what was
      buffered before stays readable (sections 5.3 and 5.4 of RFC 4254);
    - EOF ends both byte streams of the sender and nothing else;
    - SendRequest on a closed channel returns at once, and a request that is waiting for its
      answer when the channel closes returns false unless the answer is already buffered;
    - a local Close unblocks local readers only when the peer has answered with its own CLOSE. */
module ChannelMachine {
  import opened Basics

  datatype Request = Request(kind: string, wantReply: bool, payload: seq<byte>)

  const AGENT_FORWARDING := "auth-agent-req@openssh.com"

  predicate IsAgent(r: Request) { r.kind == AGENT_FORWARDING }

  /** The four byte streams: two from the upstream to the client, two back. */
  datatype Stream = Stdout | Stderr | Stdin | StdinErr

  predicate FromUpstream(x: Stream) { x.Stdout? || x.Stderr? }

  datatype CopyPc = Reading | Writing | Copied | Finished

  /** One io.Copy with its source and its sink. `sent` is everything the source peer ever wrote,
      `buffer` what the library holds, `hand` the chunk in the copy's own buffer, and `delivered`
      what the other peer has taken. `failed` records a write error. */
  datatype Pipe = Pipe(
    sent: seq<byte>, buffer: seq<byte>, hand: seq<byte>, delivered: seq<byte>,
    eof: bool, failed: bool, pc: CopyPc)

  datatype LoopPc =
    | Idle                                   // blocked in `range`
    | Have(r: Request)                       // received, not yet forwarded (client side: wants the lock)
    | Locked(r: Request)                     // client side only: holds `replying`
    | Await(r: Request)                      // SendRequest waits for the far side's answer
    | Reply(r: Request, ok: bool)            // about to call r.Reply
    | Unlock                                 // client side only: about to release `replying`
    | Exit                                   // the range loop has ended
    | Signalled                              // upstream side only: upReqsDone is closed
    | Done

  datatype MainPc = WaitUp | WaitCopies | WaitLock | CloseClient | CloseUp | ReleaseLock | WaitDrain | Returned

  datatype Owner = Free | ClientLoop | Main

  datatype Streams = Streams(
    out: Pipe, err: Pipe, inn: Pipe, innErr: Pipe,
    stdinEnded: bool)                        // upChan.CloseWrite has been called

  /** Requests from the upstream to the client: what was sent, what the library still holds, and
      what the client got. `missed` records a SendRequest that failed; `answers` are the client's
      answers and `replies` the r.Reply calls made towards the upstream. */
  datatype UpSide = UpSide(
    sent: seq<Request>, queue: seq<Request>, closed: bool, loop: LoopPc, done: bool,
    got: seq<Request>, missed: bool, answers: seq<bool>, replies: seq<bool>)

  /** Requests from the client to the upstream. `handled` are the requests that took `replying`,
      in order, `got` is what the upstream received and `answers` its answers, of which `pending` is the one
      not yet read; `replies` are the r.Reply calls made before the client channel was closed. */
  datatype CliSide = CliSide(
    sent: seq<Request>, queue: seq<Request>, gone: bool, loop: LoopPc, handled: seq<Request>,
    got: seq<Request>, answers: seq<bool>, pending: Option<bool>, replies: seq<bool>)

  datatype Sync = Sync(
    lock: Owner, fromLeft: int, drainLeft: int, main: MainPc, handledAtTeardown: seq<Request>,
    cliCloseSent: bool, upCloseSent: bool)

  datatype State = State(io: Streams, up: UpSide, cli: CliSide, sync: Sync)

  const FRESH_PIPE := Pipe([], [], [], [], false, false, Reading)

  const INITIAL := State(
    Streams(FRESH_PIPE, FRESH_PIPE, FRESH_PIPE, FRESH_PIPE, false),
    UpSide([], [], false, Idle, false, [], false, [], []),
    CliSide([], [], false, Idle, [], [], [], None, []),
    Sync(Free, 2, 4, WaitUp, [], false, false))

  /** What the two peers may do, in any order and at any time their own CLOSE allows. */
  datatype PeerAct =
    | Arrive(x: Stream, data: seq<byte>)     // the source of stream x writes
    | UpEof | UpRequest(r: Request) | UpCloses
    | ClientEof | ClientRequest(r: Request) | ClientCloses
    | UpAnswers(ok: bool)                    // the upstream answers a forwarded request
    | UpTakes(x: Stream, k: nat)             // the upstream takes k bytes of a client stream

  /** What the client, or the library on its behalf, owes the proxy: a write to it completes
      or fails, and a request to it is answered. */
  datatype OwedAct = ClientTakes(x: Stream, k: nat) | ClientFails(x: Stream) | ClientAnswers(ok: bool)

  datatype CopyAct =
    | Read(x: Stream, k: nat) | SeeEof(x: Stream) | UpWriteFails(x: Stream) | CloseWrite | Finish(x: Stream)

  datatype UpAct = UpTake | UpForward(delivered: bool) | UpGiveUp | UpReply | UpEnd | UpSignal | UpFinish

  datatype CliAct = CliTake | CliLock | CliForward | CliHear | CliGiveUp | CliReply | CliUnlock | CliEnd | CliFinish

  datatype Step =
    | Peer(p: PeerAct) | Owed(w: OwedAct) | Copy(c: CopyAct) | UpLoop(u: UpAct) | CliLoop(l: CliAct) | MainStep

  /** The order the program uses and the three that its comment rejects. */
  datatype Order = AsWritten | WaitForAllSix | CloseAfterByteCopies | CloseOnStreamEof

  function Get(io: Streams, x: Stream): Pipe {
    match x
    case Stdout => io.out
    case Stderr => io.err
    case Stdin => io.inn
    case StdinErr => io.innErr
  }

  function Put(io: Streams, x: Stream, p: Pipe): Streams {
    match x
    case Stdout => io.(out := p)
    case Stderr => io.(err := p)
    case Stdin => io.(inn := p)
    case StdinErr => io.(innErr := p)
  }

  predicate UpstreamUnwritable(s: State) { s.up.closed || s.sync.upCloseSent }

  predicate ClientUnwritable(s: State) { s.cli.gone || s.sync.cliCloseSent }

  // Guards

  predicate PeerEnabled(s: State, a: PeerAct) {
    match a
    case Arrive(x, _) => !Get(s.io, x).eof
    case UpEof => !s.up.closed
    case UpRequest(_) => !s.up.closed
    case UpCloses => !s.up.closed
    case ClientEof => !s.cli.gone
    case ClientRequest(_) => !s.cli.gone
    case ClientCloses => !s.cli.gone
    case UpAnswers(_) => s.cli.loop.Await? && s.cli.pending.None? && !s.up.closed
    case UpTakes(x, k) => !FromUpstream(x) && CanTake(Get(s.io, x), k) && !UpstreamUnwritable(s)
  }

  predicate CanTake(p: Pipe, k: nat) { p.pc.Writing? && 0 < k <= |p.hand| }

  predicate OwedEnabled(s: State, a: OwedAct) {
    match a
    case ClientTakes(x, k) => FromUpstream(x) && CanTake(Get(s.io, x), k) && !ClientUnwritable(s)
    case ClientFails(x) => FromUpstream(x) && Get(s.io, x).pc.Writing?
    case ClientAnswers(_) => s.up.loop.Await? && !s.cli.gone
  }

  predicate CopyEnabled(s: State, a: CopyAct) {
    match a
    case Read(x, k) => Get(s.io, x).pc.Reading? && 0 < k <= |Get(s.io, x).buffer|
    case SeeEof(x) => Get(s.io, x).pc.Reading? && Get(s.io, x).buffer == [] && Get(s.io, x).eof
    case UpWriteFails(x) => !FromUpstream(x) && Get(s.io, x).pc.Writing? && UpstreamUnwritable(s)
    case CloseWrite => s.io.inn.pc.Copied? && !s.io.stdinEnded
    case Finish(x) => Get(s.io, x).pc.Copied? && (x.Stdin? ==> s.io.stdinEnded)
  }

  predicate UpEnabled(s: State, a: UpAct) {
    match a
    case UpTake => s.up.loop.Idle? && s.up.queue != []
    case UpForward(delivered) => s.up.loop.Have? && (delivered ==> !ClientUnwritable(s))
    case UpGiveUp => s.up.loop.Await? && s.cli.gone
    case UpReply => s.up.loop.Reply?
    case UpEnd => s.up.loop.Idle? && s.up.queue == [] && s.up.closed
    case UpSignal => s.up.loop.Exit?
    case UpFinish => s.up.loop.Signalled?
  }

  predicate CliEnabled(s: State, a: CliAct) {
    match a
    case CliTake => s.cli.loop.Idle? && s.cli.queue != []
    case CliLock => s.cli.loop.Have? && s.sync.lock.Free?
    case CliForward => s.cli.loop.Locked?
    case CliHear => s.cli.loop.Await? && s.cli.pending.Some?
    case CliGiveUp => s.cli.loop.Await? && s.cli.pending.None? && s.up.closed
    case CliReply => s.cli.loop.Reply?
    case CliUnlock => s.cli.loop.Unlock?
    case CliEnd => s.cli.loop.Idle? && s.cli.queue == [] && s.cli.gone
    case CliFinish => s.cli.loop.Exit?
  }

  predicate FirstWaitOver(o: Order, s: State) {
    match o
    case AsWritten => s.up.done
    case WaitForAllSix => s.sync.fromLeft == 0 && s.sync.drainLeft == 0
    case CloseAfterByteCopies => s.io.out.pc.Finished? && s.io.inn.pc.Finished?
    case CloseOnStreamEof => s.sync.fromLeft == 0
  }

  predicate MainEnabled(o: Order, s: State) {
    match s.sync.main
    case WaitUp => FirstWaitOver(o, s)
    case WaitCopies => s.sync.fromLeft == 0
    case WaitLock => s.sync.lock.Free?
    case CloseClient => true
    case CloseUp => true
    case ReleaseLock => true
    case WaitDrain => s.sync.drainLeft == 0
    case Returned => false
  }

  predicate Enabled(o: Order, s: State, a: Step) {
    match a
    case Peer(p) => PeerEnabled(s, p)
    case Owed(w) => OwedEnabled(s, w)
    case Copy(c) => CopyEnabled(s, c)
    case UpLoop(u) => UpEnabled(s, u)
    case CliLoop(l) => CliEnabled(s, l)
    case MainStep => MainEnabled(o, s)
  }

  // Effects

  function PeerNext(s: State, a: PeerAct): State
    requires PeerEnabled(s, a)
  {
    match a
    case Arrive(x, data) => s.(io := Put(s.io, x, Receive(Get(s.io, x), data)))
    case UpEof => s.(io := UpstreamEof(s.io))
    case UpRequest(r) => s.(up := s.up.(sent := s.up.sent + [r], queue := s.up.queue + [r]))
    case UpCloses => s.(io := UpstreamEof(s.io), up := s.up.(closed := true))
    case ClientEof => s.(io := ClientEnd(s.io))
    case ClientRequest(r) => s.(cli := s.cli.(sent := s.cli.sent + [r], queue := s.cli.queue + [r]))
    case ClientCloses => s.(io := ClientEnd(s.io), cli := s.cli.(gone := true))
    case UpAnswers(ok) => s.(cli := s.cli.(answers := s.cli.answers + [ok], pending := Some(ok)))
    case UpTakes(x, k) => s.(io := Put(s.io, x, Take(Get(s.io, x), k)))
  }

  function Receive(p: Pipe, data: seq<byte>): Pipe { p.(sent := p.sent + data, buffer := p.buffer + data) }

  function UpstreamEof(io: Streams): Streams { io.(out := io.out.(eof := true), err := io.err.(eof := true)) }

  function ClientEnd(io: Streams): Streams { io.(inn := io.inn.(eof := true), innErr := io.innErr.(eof := true)) }

  /** The sink takes k bytes of the chunk in hand; an empty hand goes back to reading. */
  function Take(p: Pipe, k: nat): Pipe
    requires k <= |p.hand|
  {
    p.(delivered := p.delivered + p.hand[..k], hand := p.hand[k..],
       pc := if k == |p.hand| then Reading else Writing)
  }

  /** io.Copy reads a chunk of k bytes. */
  function Chunk(p: Pipe, k: nat): Pipe
    requires k <= |p.buffer|
  {
    p.(hand := p.buffer[..k], buffer := p.buffer[k..], pc := Writing)
  }

  /** A write error ends io.Copy; what was in hand is lost. */
  function Break(p: Pipe): Pipe { p.(hand := [], failed := true, pc := Copied) }

  function OwedNext(s: State, a: OwedAct): State
    requires OwedEnabled(s, a)
  {
    match a
    case ClientTakes(x, k) => s.(io := Put(s.io, x, Take(Get(s.io, x), k)))
    case ClientFails(x) => s.(io := Put(s.io, x, Break(Get(s.io, x))))
    case ClientAnswers(ok) => s.(up := s.up.(answers := s.up.answers + [ok], loop := Reply(s.up.loop.r, ok)))
  }

  function CopyNext(s: State, a: CopyAct): State
    requires CopyEnabled(s, a)
  {
    match a
    case Read(x, k) => s.(io := Put(s.io, x, Chunk(Get(s.io, x), k)))
    case SeeEof(x) => s.(io := Put(s.io, x, Get(s.io, x).(pc := Copied)))
    case UpWriteFails(x) => s.(io := Put(s.io, x, Break(Get(s.io, x))))
    case CloseWrite => s.(io := s.io.(stdinEnded := true))
    case Finish(x) =>
      s.(io := Put(s.io, x, Get(s.io, x).(pc := Finished)),
         sync := if FromUpstream(x) then s.sync.(fromLeft := s.sync.fromLeft - 1)
                 else s.sync.(drainLeft := s.sync.drainLeft - 1))
  }

  function UpNext(s: State, a: UpAct): State
    requires UpEnabled(s, a)
  {
    var u := s.up;
    match a
    case UpTake => s.(up := u.(loop := Have(u.queue[0]), queue := u.queue[1..]))
    case UpForward(delivered) =>
      if delivered then
        s.(up := u.(got := u.got + [u.loop.r], loop := if u.loop.r.wantReply then Await(u.loop.r) else Idle))
      else
        s.(up := u.(missed := true, loop := if u.loop.r.wantReply then Reply(u.loop.r, false) else Idle))
    case UpGiveUp => s.(up := u.(loop := Reply(u.loop.r, false)))
    case UpReply => s.(up := u.(replies := u.replies + [u.loop.ok], loop := Idle))
    case UpEnd => s.(up := u.(loop := Exit))
    case UpSignal => s.(up := u.(done := true, loop := Signalled))
    case UpFinish => s.(up := u.(loop := Done), sync := s.sync.(drainLeft := s.sync.drainLeft - 1))
  }

  function CliNext(s: State, a: CliAct): State
    requires CliEnabled(s, a)
  {
    var c := s.cli;
    match a
    case CliTake => s.(cli := c.(loop := Have(c.queue[0]), queue := c.queue[1..]))
    case CliLock =>
      s.(cli := c.(loop := Locked(c.loop.r), handled := c.handled + [c.loop.r]), sync := s.sync.(lock := ClientLoop))
    case CliForward =>
      if IsAgent(c.loop.r) || UpstreamUnwritable(s) then
        s.(cli := c.(loop := if c.loop.r.wantReply then Reply(c.loop.r, false) else Unlock))
      else
        s.(cli := c.(got := c.got + [c.loop.r], loop := if c.loop.r.wantReply then Await(c.loop.r) else Unlock))
    case CliHear => s.(cli := c.(loop := Reply(c.loop.r, c.pending.value), pending := None))
    case CliGiveUp => s.(cli := c.(loop := Reply(c.loop.r, false)))
    case CliReply =>
      s.(cli := c.(replies := if s.sync.cliCloseSent then c.replies else c.replies + [c.loop.ok], loop := Unlock))
    case CliUnlock => s.(cli := c.(loop := Idle), sync := s.sync.(lock := Free))
    case CliEnd => s.(cli := c.(loop := Exit))
    case CliFinish => s.(cli := c.(loop := Done), sync := s.sync.(drainLeft := s.sync.drainLeft - 1))
  }

  /** Where the main goroutine goes after its first wait, in each order. */
  function AfterFirstWait(o: Order): MainPc {
    if o.AsWritten? then WaitCopies else WaitLock
  }

  function MainNext(o: Order, s: State): State
    requires MainEnabled(o, s)
  {
    var y := s.sync;
    match y.main
    case WaitUp => s.(sync := y.(main := AfterFirstWait(o)))
    case WaitCopies => s.(sync := y.(main := WaitLock))
    case WaitLock => s.(sync := y.(main := CloseClient, lock := Main, handledAtTeardown := s.cli.handled))
    case CloseClient => s.(sync := y.(main := CloseUp, cliCloseSent := true))
    case CloseUp => s.(sync := y.(main := ReleaseLock, upCloseSent := true))
    case ReleaseLock => s.(sync := y.(main := WaitDrain, lock := Free))
    case WaitDrain => s.(sync := y.(main := Returned))
  }

  function Next(o: Order, s: State, a: Step): State
    requires Enabled(o, s, a)
  {
    match a
    case Peer(p) => PeerNext(s, p)
    case Owed(w) => OwedNext(s, w)
    case Copy(c) => CopyNext(s, c)
    case UpLoop(u) => UpNext(s, u)
    case CliLoop(l) => CliNext(s, l)
    case MainStep => MainNext(o, s)
  }

  // Runs

  /** The labels can be fired one after the other from s. */
  predicate Runs(o: Order, s: State, run: seq<Step>)
    decreases |run|
  {
    run == [] || (Enabled(o, s, run[0]) && Runs(o, Next(o, s, run[0]), run[1..]))
  }

  function After(o: Order, s: State, run: seq<Step>): State
    requires Runs(o, s, run)
    decreases |run|
  {
    if run == [] then s else After(o, Next(o, s, run[0]), run[1..])
  }

  ghost predicate Reaches(o: Order, s: State) {
    exists run :: Runs(o, INITIAL, run) && After(o, INITIAL, run) == s
  }

  lemma {:induction false} Extend(o: Order, s: State, run: seq<Step>, a: Step)
    requires Runs(o, s, run) && Enabled(o, After(o, s, run), a)
    ensures Runs(o, s, run + [a]) && After(o, s, run + [a]) == Next(o, After(o, s, run), a)
    decreases |run|
  {
    if run == [] {
      assert [a][1..] == [];
    } else {
      Extend(o, Next(o, s, run[0]), run[1..], a);
      assert (run + [a])[1..] == run[1..] + [a];
    }
  }

  lemma ReachesNothing(o: Order)
    ensures Reaches(o, INITIAL)
  {
    assert Runs(o, INITIAL, []) && After(o, INITIAL, []) == INITIAL;
  }

  lemma ReachesNext(o: Order, s: State, a: Step)
    requires Reaches(o, s) && Enabled(o, s, a)
    ensures Reaches(o, Next(o, s, a))
  {
    var run :| Runs(o, INITIAL, run) && After(o, INITIAL, run) == s;
    Extend(o, INITIAL, run, a);
  }

  /** One more label of a run that is written out step by step. */
  lemma Fire(o: Order, s: State, a: Step) returns (t: State)
    requires Reaches(o, s) && Enabled(o, s, a)
    ensures t == Next(o, s, a) && Reaches(o, t)
  {
    ReachesNext(o, s, a);
    t := Next(o, s, a);
  }
}
