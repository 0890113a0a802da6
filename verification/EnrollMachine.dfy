/** Key enrollment with any number of handshakes and browsers interleaved. Each action of a callback
    or handler that another one can come between is a step of its own; the log remembers what was
    offered, taken, minted, consumed, added, removed and shown, in order. */
module EnrollMachine {
  import opened Basics
  import opened EnrollStores

  type Browser = nat

  datatype Event =
    | Offered(sid: Sid, key: PublicKey, found: KeyLookup, asOf: nat, at: int) // found in the table as of log[..asOf]
    | Swept(at: int)                                      // the pending keys were swept
    | Taken(sid: Sid, at: int)                            // the keyboard-interactive callback took the record
    | Dropped(sid: Sid)                                   // the record was deleted behind the handshake's back
    | TokensSwept(at: int)
    | Minted(token: Token, job: nat, at: int)             // job is the index of its Taken event
    | Consumed(token: Token, userId: int, at: int)
    | Rejected(token: Token)                              // a signed-in visitor presented it in vain
    | KeyAdded(fingerprint: Fingerprint, userId: int, token: Token)
    | KeyRemoved(fingerprint: Fingerprint)
    | ShownSuccess(fingerprint: Fingerprint, userId: int)

  /** A browser between consuming its token and its last look at the key table. */
  datatype Visit = HasEnrollment(userId: int, token: Token, e: Enrollment) | SawTaken(userId: int, e: Enrollment)

  /** A committed version of the key table, and the length of the log at its commit. */
  datatype Version = Version(keys: Keys, asOf: nat)

  datatype State = State(
    pending: Pendings, minting: map<nat, Pending>, tokens: Tokens, visits: map<Browser, Visit>, keys: Keys,
    minted: map<Token, nat>, addedBy: map<Fingerprint, Token>, versions: seq<Version>, log: seq<Event>)

  const INITIAL := State(map[], map[], map[], map[], map[], map[], map[], [Version(map[], 0)], [])

  datatype SshAct =
    | Offer(sid: Sid, key: PublicKey, seen: nat, dbUp: bool, now: int)   // the lookup read version number `seen`
    | DropPending(sid: Sid)                               // handshake over, or a concurrent sweep's late delete
    | Take(sid: Sid, now: int)
    | Mint(job: nat, token: Token, sweepAt: int, now: int)
    | MintFails(job: nat)

  datatype WebAct =
    | Start(token: Token, now: int)
    | Complete(b: Browser, token: Token, visitor: Visitor, now: int)
    | Bind(b: Browser, keyLabel: string, now: int, dbUp: bool)
    | Recheck(b: Browser, dbUp: bool)
    | RemoveKey(fingerprint: Fingerprint)                 // the operator's command

  datatype Step = Ssh(x: SshAct) | Web(w: WebAct)

  predicate SshEnabled(s: State, a: SshAct) {
    match a
    case Offer(_, _, seen, _, _) => seen < |s.versions|
    case Mint(job, token, _, _) => job in s.minting && token !in s.minted   // random tokens never repeat
    case MintFails(job) => job in s.minting
    case _ => true
  }

  predicate WebEnabled(s: State, a: WebAct) {
    match a
    case Complete(b, _, _, _) => b !in s.visits
    case Bind(b, _, _, _) => b in s.visits && s.visits[b].HasEnrollment?
    case Recheck(b, _) => b in s.visits && s.visits[b].SawTaken?
    case _ => true
  }

  /** What KeyStore.Get answers on a version of the table. */
  function LookUp(keys: Keys, fp: Fingerprint, dbUp: bool): KeyLookup {
    if !dbUp then LookupFailed else if fp in keys then Found(keys[fp]) else Unknown
  }

  function FoundBy(hash: Hash, s: State, a: SshAct): KeyLookup
    requires a.Offer? && SshEnabled(s, a)
  {
    LookUp(s.versions[a.seen].keys, hash(a.key.blob), a.dbUp)
  }

  /** What the step writes in the log. */
  function SshEvents(hash: Hash, s: State, a: SshAct): seq<Event>
    requires SshEnabled(s, a)
  {
    match a
    case Offer(sid, key, seen, _, now) => [Offered(sid, key, FoundBy(hash, s, a), s.versions[seen].asOf, now)]
    case DropPending(sid) => [Dropped(sid)]
    case Take(sid, now) =>
      [Swept(now)] + (if sid in s.pending && !Stale(s.pending[sid], now) then [Taken(sid, now)] else [])
    case Mint(job, token, sweepAt, now) => [TokensSwept(sweepAt), Minted(token, job, now)]
    case _ => []
  }

  function PendingAfter(hash: Hash, s: State, a: SshAct): Pendings
    requires SshEnabled(s, a)
  {
    match a
    case Offer(sid, key, _, _, now) => AfterOffer(hash, s.pending, sid, key, FoundBy(hash, s, a), now)
    case DropPending(sid) => s.pending - {sid}
    case Take(sid, now) => FreshPending(s.pending, now) - {sid}
    case _ => s.pending
  }

  function MintingAfter(s: State, a: SshAct): map<nat, Pending> {
    match a
    case Take(sid, now) =>
      if sid in s.pending && !Stale(s.pending[sid], now) then s.minting[|s.log| + 1 := s.pending[sid]] else s.minting
    case Mint(job, _, _, _) => s.minting - {job}
    case MintFails(job) => s.minting - {job}
    case _ => s.minting
  }

  function SshNext(hash: Hash, s: State, a: SshAct): State
    requires SshEnabled(s, a)
  {
    State(
      PendingAfter(hash, s, a),
      MintingAfter(s, a),
      if a.Mint? then WithToken(s.tokens, a.token, s.minting[a.job], a.sweepAt, a.now) else s.tokens,
      s.visits,
      s.keys,
      if a.Mint? then s.minted[a.token := a.job] else s.minted,
      s.addedBy,
      s.versions,
      s.log + SshEvents(hash, s, a))
  }

  predicate ConsumesLive(s: State, a: WebAct) {
    a.Complete? && a.visitor.SignedIn? && a.token in s.tokens && !Expired(s.tokens[a.token], a.now)
  }

  predicate AddsKey(s: State, a: WebAct)
    requires WebEnabled(s, a)
  {
    a.Bind? && a.dbUp && s.visits[a.b].e.fingerprint !in s.keys
  }

  predicate FindsOwnKey(s: State, a: WebAct)
    requires WebEnabled(s, a)
  {
    && a.Recheck? && a.dbUp && s.visits[a.b].e.fingerprint in s.keys
    && s.keys[s.visits[a.b].e.fingerprint].userId == s.visits[a.b].userId
  }

  function WebEvents(s: State, a: WebAct): seq<Event>
    requires WebEnabled(s, a)
  {
    if ConsumesLive(s, a) then [Consumed(a.token, a.visitor.userId, a.now)]
    else if a.Complete? && a.visitor.SignedIn? then [Rejected(a.token)]
    else if AddsKey(s, a) then
      var v := s.visits[a.b];
      [KeyAdded(v.e.fingerprint, v.userId, v.token), ShownSuccess(v.e.fingerprint, v.userId)]
    else if FindsOwnKey(s, a) then [ShownSuccess(s.visits[a.b].e.fingerprint, s.visits[a.b].userId)]
    else if a.RemoveKey? then [KeyRemoved(a.fingerprint)]
    else []
  }

  function VisitsAfter(s: State, a: WebAct): map<Browser, Visit>
    requires WebEnabled(s, a)
  {
    if ConsumesLive(s, a) then s.visits[a.b := HasEnrollment(a.visitor.userId, a.token, s.tokens[a.token])]
    else if a.Bind? && a.dbUp && s.visits[a.b].e.fingerprint in s.keys then
      s.visits[a.b := SawTaken(s.visits[a.b].userId, s.visits[a.b].e)]
    else if a.Bind? || a.Recheck? then s.visits - {a.b}
    else s.visits
  }

  function KeysAfter(s: State, a: WebAct): Keys
    requires WebEnabled(s, a)
  {
    if AddsKey(s, a) then
      var v := s.visits[a.b];
      s.keys[v.e.fingerprint :=
        KeyRow(v.userId, v.e.fingerprint, v.e.keyType, v.e.publicKey, a.keyLabel, Unix(a.now))]
    else if a.RemoveKey? then s.keys - {a.fingerprint}
    else s.keys
  }

  function AddedByAfter(s: State, a: WebAct): map<Fingerprint, Token>
    requires WebEnabled(s, a)
  {
    if AddsKey(s, a) then s.addedBy[s.visits[a.b].e.fingerprint := s.visits[a.b].token]
    else if a.RemoveKey? then s.addedBy - {a.fingerprint}
    else s.addedBy
  }

  function WebNext(s: State, a: WebAct): State
    requires WebEnabled(s, a)
  {
    State(
      s.pending,
      s.minting,
      if a.Complete? && a.visitor.SignedIn? then s.tokens - {a.token} else s.tokens,
      VisitsAfter(s, a),
      KeysAfter(s, a),
      s.minted,
      AddedByAfter(s, a),
      if AddsKey(s, a) || a.RemoveKey? then s.versions + [Version(KeysAfter(s, a), |s.log| + |WebEvents(s, a)|)]
        else s.versions,
      s.log + WebEvents(s, a))
  }

  predicate Enabled(s: State, a: Step) {
    match a
    case Ssh(x) => SshEnabled(s, x)
    case Web(w) => WebEnabled(s, w)
  }

  function Next(hash: Hash, s: State, a: Step): State
    requires Enabled(s, a)
  {
    match a
    case Ssh(x) => SshNext(hash, s, x)
    case Web(w) => WebNext(s, w)
  }

  predicate Runs(hash: Hash, s: State, run: seq<Step>)
    decreases |run|
  {
    run == [] || (Enabled(s, run[0]) && Runs(hash, Next(hash, s, run[0]), run[1..]))
  }

  function After(hash: Hash, s: State, run: seq<Step>): State
    requires Runs(hash, s, run)
    decreases |run|
  {
    if run == [] then s else After(hash, Next(hash, s, run[0]), run[1..])
  }

  // What the log says, independently of the stores

  /** A key that a handshake would be prompted for, and when it was offered. */
  datatype Prompt = Prompt(key: PublicKey, at: int)

  /** What one event of a handshake does to the key that it would be prompted for. */
  function PromptAfter(hash: Hash, last: Option<Prompt>, e: Event, sid: Sid): Option<Prompt> {
    if e.Offered? && e.sid == sid then
      match e.found
      case Unknown => Some(Prompt(e.key, e.at))
      case Found(row) => if row.fingerprint == hash(e.key.blob) then None else last
      case LookupFailed => last
    else if (e.Taken? || e.Dropped?) && e.sid == sid then None
    else last
  }

  /** The last unknown key offered in the handshake since its last known-key hit or prompt. */
  function LastUnknown(hash: Hash, log: seq<Event>, sid: Sid): Option<Prompt> {
    if log == [] then None
    else PromptAfter(hash, LastUnknown(hash, log[..|log| - 1], sid), log[|log| - 1], sid)
  }

  function RecordAfter(hash: Hash, last: Option<Prompt>, e: Event, sid: Sid): Option<Prompt> {
    if e.Swept? then
      if last.Some? && e.at - last.value.at > 10 * SECOND then None else last
    else PromptAfter(hash, last, e, sid)
  }

  /** The same, but forgotten at the first sweep that finds it more than ten seconds old. */
  function Recorded(hash: Hash, log: seq<Event>, sid: Sid): Option<Prompt> {
    if log == [] then None
    else RecordAfter(hash, Recorded(hash, log[..|log| - 1], sid), log[|log| - 1], sid)
  }

  /** The prompt that a token was minted for, and when it ends. */
  datatype Issue = Issue(job: nat, expiresAt: int)

  function IssueAfter(last: Option<Issue>, e: Event, token: Token): Option<Issue> {
    if e.Minted? && e.token == token then Some(Issue(e.job, e.at + 600 * SECOND))
    else if (e.Consumed? || e.Rejected?) && e.token == token then None
    else if e.TokensSwept? && last.Some? && e.at >= last.value.expiresAt then None
    else last
  }

  /** Minted, not presented by a signed-in visitor since, and not swept after its ten minutes. */
  function Outstanding(log: seq<Event>, token: Token): Option<Issue> {
    if log == [] then None else IssueAfter(Outstanding(log[..|log| - 1], token), log[|log| - 1], token)
  }

  function OwnerAfter(owner: Option<int>, e: Event, fp: Fingerprint): Option<int> {
    if e.KeyAdded? && e.fingerprint == fp then Some(e.userId)
    else if e.KeyRemoved? && e.fingerprint == fp then None
    else owner
  }

  /** Who owns the fingerprint, by the additions and removals alone. */
  function OwnerOf(log: seq<Event>, fp: Fingerprint): Option<int> {
    if log == [] then None else OwnerAfter(OwnerOf(log[..|log| - 1], fp), log[|log| - 1], fp)
  }

  /** Event number `job` took a record of its own handshake, no older than ten seconds, whose key is this one. */
  predicate FromTake(hash: Hash, log: seq<Event>, job: nat, fp: Fingerprint, keyType: string, blob: seq<byte>) {
    && job < |log| && log[job].Taken?
    && LastUnknown(hash, log[..job], log[job].sid).Some?
    && LastUnknown(hash, log[..job], log[job].sid).value.key == PublicKey(keyType, blob)
    && log[job].at - LastUnknown(hash, log[..job], log[job].sid).value.at <= 10 * SECOND
    && fp == hash(blob)
  }

  // Invariant

  predicate RecordIs(hash: Hash, pending: Pendings, sid: Sid, rec: Option<Prompt>) {
    match rec
    case None => sid !in pending
    case Some(p) => sid in pending && pending[sid] == Pending(hash(p.key.blob), p.key.keyType, p.key.blob, p.at)
  }

  /** There is a record exactly when the log says so, and it is what the log says. */
  ghost predicate PendingOk(hash: Hash, s: State) {
    forall sid :: RecordIs(hash, s.pending, sid, Recorded(hash, s.log, sid))
  }

  predicate TokenIs(s: State, token: Token, issue: Option<Issue>) {
    match issue
    case None => token !in s.tokens
    case Some(i) =>
      && token in s.tokens && s.tokens[token].expiresAt == i.expiresAt
      && token in s.minted && s.minted[token] == i.job
  }

  /** There is a token exactly when the log says so. */
  ghost predicate IssuedOk(s: State) {
    forall token :: TokenIs(s, token, Outstanding(s.log, token))
  }

  ghost predicate MintingOk(hash: Hash, s: State) {
    && (forall job :: job in s.minting ==>
         FromTake(hash, s.log, job, s.minting[job].fingerprint, s.minting[job].keyType, s.minting[job].blob))
    && (forall t :: t in s.minted ==> s.minted[t] !in s.minting && s.minted[t] < |s.log|)
    && (forall t, u :: t in s.minted && u in s.minted && s.minted[t] == s.minted[u] ==> t == u)
  }

  ghost predicate EnrollmentOk(hash: Hash, s: State, token: Token, e: Enrollment) {
    token in s.minted && FromTake(hash, s.log, s.minted[token], e.fingerprint, e.keyType, e.publicKey)
  }

  ghost predicate TokensOk(hash: Hash, s: State) {
    && (forall t :: t in s.tokens ==> EnrollmentOk(hash, s, t, s.tokens[t]))
    && (forall b :: b in s.visits && s.visits[b].HasEnrollment? ==>
         EnrollmentOk(hash, s, s.visits[b].token, s.visits[b].e))
  }

  ghost predicate KeysOk(hash: Hash, s: State) {
    && s.addedBy.Keys == s.keys.Keys
    && forall fp :: fp in s.keys ==>
         && s.keys[fp].fingerprint == fp && s.addedBy[fp] in s.minted
         && FromTake(hash, s.log, s.minted[s.addedBy[fp]], fp, s.keys[fp].keyType, s.keys[fp].publicKey)
  }

  function Owner(keys: Keys, fp: Fingerprint): Option<int> {
    if fp in keys then Some(keys[fp].userId) else None
  }

  ghost predicate OwnersOk(s: State) {
    forall fp :: OwnerOf(s.log, fp) == Owner(s.keys, fp)
  }

  /** Every committed version says of every key what the log said by then. */
  ghost predicate VersionsOk(s: State) {
    forall v :: 0 <= v < |s.versions| ==> s.versions[v].asOf <= |s.log| && VersionOk(s.log, s.versions[v])
  }

  ghost predicate VersionOk(log: seq<Event>, v: Version)
    requires v.asOf <= |log|
  {
    forall fp :: OwnerOf(log[..v.asOf], fp) == Owner(v.keys, fp) && (fp in v.keys ==> v.keys[fp].fingerprint == fp)
  }

  /** The answer that an offer got is the one that the log gives for the version read. */
  ghost predicate OfferOk(hash: Hash, log: seq<Event>, i: nat)
    requires i < |log| && log[i].Offered?
  {
    var e := log[i];
    var fp := hash(e.key.blob);
    && e.asOf <= i
    && match e.found
       case LookupFailed => true
       case Unknown => OwnerOf(log[..e.asOf], fp) == None
       case Found(row) => row.fingerprint == fp && OwnerOf(log[..e.asOf], fp) == Some(row.userId)
  }

  ghost predicate OffersOk(hash: Hash, log: seq<Event>) {
    forall i :: 0 <= i < |log| && log[i].Offered? ==> OfferOk(hash, log, i)
  }

  /** A key is only ever added while nobody owns it. */
  ghost predicate AddsOk(log: seq<Event>) {
    forall i :: 0 <= i < |log| && log[i].KeyAdded? ==> OwnerOf(log[..i], log[i].fingerprint) == None
  }

  /** The log has the token minted before event number n, to expire then. */
  ghost predicate MintedFor(log: seq<Event>, n: nat, token: Token, expiresAt: int)
    requires n <= |log|
  {
    exists i :: 0 <= i < n && log[i].Minted? && log[i].token == token && expiresAt == log[i].at + TOKEN_TTL
  }

  /** The token of event number j had been minted, and its time was not yet up. */
  ghost predicate InTime(log: seq<Event>, j: nat)
    requires j < |log| && log[j].Consumed?
  {
    exists expiresAt :: MintedFor(log, j, log[j].token, expiresAt) && log[j].at < expiresAt
  }

  ghost predicate TimesOk(s: State) {
    && (forall t :: t in s.tokens ==> MintedFor(s.log, |s.log|, t, s.tokens[t].expiresAt))
    && (forall j :: 0 <= j < |s.log| && s.log[j].Consumed? ==> InTime(s.log, j))
  }

  /** No token that was consumed is left, and none was consumed twice. */
  ghost predicate OnceOk(s: State) {
    && (forall t :: t in s.tokens ==> t in s.minted)
    && (forall i :: 0 <= i < |s.log| && s.log[i].Consumed? ==>
         s.log[i].token in s.minted && s.log[i].token !in s.tokens)
    && (forall i, j :: 0 <= i < j < |s.log| && s.log[i].Consumed? && s.log[j].Consumed? ==>
         s.log[i].token != s.log[j].token)
    && (forall i :: 0 <= i < |s.log| && s.log[i].Minted? ==> s.log[i].token in s.minted)
    && (forall i, j :: 0 <= i < j < |s.log| && s.log[i].Minted? && s.log[j].Minted? ==>
         s.log[i].token != s.log[j].token)
  }

  ghost predicate PagesOk(log: seq<Event>) {
    forall i :: 0 <= i < |log| && log[i].ShownSuccess? ==> OwnerOf(log[..i], log[i].fingerprint) == Some(log[i].userId)
  }

  ghost predicate Inv(hash: Hash, s: State) {
    && PendingOk(hash, s) && IssuedOk(s) && MintingOk(hash, s) && TokensOk(hash, s) && KeysOk(hash, s) && OwnersOk(s)
    && TimesOk(s) && OnceOk(s) && PagesOk(s.log) && VersionsOk(s) && OffersOk(hash, s.log) && AddsOk(s.log)
  }

  // The log functions one event further

  lemma SnocLog(hash: Hash, log: seq<Event>, e: Event, sid: Sid)
    ensures LastUnknown(hash, log + [e], sid) == PromptAfter(hash, LastUnknown(hash, log, sid), e, sid)
    ensures Recorded(hash, log + [e], sid) == RecordAfter(hash, Recorded(hash, log, sid), e, sid)
  {
    assert (log + [e])[..|log|] == log;
  }

  lemma SnocIssue(log: seq<Event>, e: Event, token: Token)
    ensures Outstanding(log + [e], token) == IssueAfter(Outstanding(log, token), e, token)
  {
    assert (log + [e])[..|log|] == log;
  }

  /** What is recorded is the last unknown key. */
  lemma {:induction false} RecordedIsLast(hash: Hash, log: seq<Event>, sid: Sid)
    ensures Recorded(hash, log, sid).Some? ==> Recorded(hash, log, sid) == LastUnknown(hash, log, sid)
  {
    if log != [] { RecordedIsLast(hash, log[..|log| - 1], sid); }
  }

  /** The last unknown key is recorded unless some sweep found it too old. */
  lemma {:induction false} FreshIsRecorded(hash: Hash, log: seq<Event>, sid: Sid)
    requires LastUnknown(hash, log, sid).Some?
    requires forall i :: 0 <= i < |log| && log[i].Swept? ==>
      log[i].at - LastUnknown(hash, log, sid).value.at <= 10 * SECOND
    ensures Recorded(hash, log, sid) == LastUnknown(hash, log, sid)
  {
    var front, e := log[..|log| - 1], log[|log| - 1];
    if LastUnknown(hash, front, sid) == LastUnknown(hash, log, sid) {
      FreshIsRecorded(hash, front, sid);
    }
  }

  lemma SnocOwner(log: seq<Event>, e: Event, fp: Fingerprint)
    ensures OwnerOf(log + [e], fp) == OwnerAfter(OwnerOf(log, fp), e, fp)
  {
    assert (log + [e])[..|log|] == log;
  }

  lemma TakeStays(
    hash: Hash, log: seq<Event>, more: seq<Event>, job: nat, fp: Fingerprint, keyType: string, blob: seq<byte>)
    requires FromTake(hash, log, job, fp, keyType, blob)
    ensures FromTake(hash, log + more, job, fp, keyType, blob)
  {
    assert (log + more)[..job] == log[..job];
  }

  lemma EnrollmentStays(hash: Hash, s: State, t: State, token: Token, e: Enrollment)
    requires EnrollmentOk(hash, s, token, e) && s.log <= t.log
    requires token in t.minted && t.minted[token] == s.minted[token]
    ensures EnrollmentOk(hash, t, token, e)
  {
    TakeStays(hash, s.log, t.log[|s.log|..], s.minted[token], e.fingerprint, e.keyType, e.publicKey);
    assert t.log == s.log + t.log[|s.log|..];
  }

  // Pending records

  lemma PendingWeb(hash: Hash, s: State, a: WebAct)
    requires PendingOk(hash, s) && WebEnabled(s, a)
    ensures PendingOk(hash, WebNext(s, a))
  {
    hide Recorded, LastUnknown, WebEvents, RecordIs;
    forall sid
      ensures Recorded(hash, WebNext(s, a).log, sid) == Recorded(hash, s.log, sid)
    {
      WebQuiet(hash, s, a, sid);
    }
  }

  lemma WebQuiet(hash: Hash, s: State, a: WebAct, sid: Sid)
    requires WebEnabled(s, a)
    ensures Recorded(hash, s.log + WebEvents(s, a), sid) == Recorded(hash, s.log, sid)
  {
    hide LastUnknown, Recorded;
    var events := WebEvents(s, a);
    if |events| == 1 {
      assert events == [events[0]];
      SnocLog(hash, s.log, events[0], sid);
    } else if |events| == 2 {
      SnocLog(hash, s.log, events[0], sid);
      SnocLog(hash, s.log + [events[0]], events[1], sid);
      assert s.log + events == s.log + [events[0]] + [events[1]];
    } else {
      assert s.log + events == s.log;
    }
  }

  /** The records after a step are those that the log says after it. */
  lemma RecordSsh(hash: Hash, s: State, a: SshAct, sid: Sid)
    requires RecordIs(hash, s.pending, sid, Recorded(hash, s.log, sid)) && SshEnabled(s, a)
    ensures RecordIs(hash, PendingAfter(hash, s, a), sid, Recorded(hash, s.log + SshEvents(hash, s, a), sid))
  {
    hide LastUnknown, Recorded;
    var events := SshEvents(hash, s, a);
    if |events| == 1 {
      assert events == [events[0]];
      SnocLog(hash, s.log, events[0], sid);
    } else if |events| == 2 {
      SnocLog(hash, s.log, events[0], sid);
      SnocLog(hash, s.log + [events[0]], events[1], sid);
      assert s.log + events == s.log + [events[0]] + [events[1]];
    } else {
      assert s.log + events == s.log;
    }
  }

  lemma PendingSsh(hash: Hash, s: State, a: SshAct)
    requires PendingOk(hash, s) && SshEnabled(s, a)
    ensures PendingOk(hash, SshNext(hash, s, a))
  {
    forall sid
      ensures RecordIs(hash, PendingAfter(hash, s, a), sid, Recorded(hash, s.log + SshEvents(hash, s, a), sid))
    {
      RecordSsh(hash, s, a, sid);
    }
    hide RecordIs, Recorded, PendingAfter, SshEvents;
  }

  // Jobs and tokens

  /** Jobs keep their origin while the log grows. */
  lemma JobsStay(hash: Hash, s: State, t: State)
    requires MintingOk(hash, s) && s.log <= t.log
    ensures forall job :: job in s.minting ==>
      FromTake(hash, t.log, job, s.minting[job].fingerprint, s.minting[job].keyType, s.minting[job].blob)
  {
    hide LastUnknown;
    forall job | job in s.minting
      ensures FromTake(hash, t.log, job, s.minting[job].fingerprint, s.minting[job].keyType, s.minting[job].blob)
    {
      var p := s.minting[job];
      TakeStays(hash, s.log, t.log[|s.log|..], job, p.fingerprint, p.keyType, p.blob);
      assert t.log == s.log + t.log[|s.log|..];
    }
  }

  /** What is taken now was the last unknown key when it was taken, and fresh. */
  lemma TakenNow(hash: Hash, s: State, a: SshAct)
    requires PendingOk(hash, s) && a.Take? && a.sid in s.pending && !Stale(s.pending[a.sid], a.now)
    ensures var p := s.pending[a.sid];
      FromTake(hash, SshNext(hash, s, a).log, |s.log| + 1, p.fingerprint, p.keyType, p.blob)
  {
    var t := SshNext(hash, s, a);
    assert RecordIs(hash, s.pending, a.sid, Recorded(hash, s.log, a.sid));
    RecordedIsLast(hash, s.log, a.sid);
    SnocLog(hash, s.log, Swept(a.now), a.sid);
    hide LastUnknown, Recorded;
    assert t.log == s.log + [Swept(a.now), Taken(a.sid, a.now)];
    assert t.log[..|s.log| + 1] == s.log + [Swept(a.now)];
  }

  lemma TakeMinting(hash: Hash, s: State, a: SshAct)
    requires PendingOk(hash, s) && MintingOk(hash, s) && a.Take?
    ensures MintingOk(hash, SshNext(hash, s, a))
  {
    var t := SshNext(hash, s, a);
    if a.sid in s.pending && !Stale(s.pending[a.sid], a.now) { TakenNow(hash, s, a); }
    JobsStay(hash, s, t);
    hide FromTake, FreshPending, Stale, LastUnknown, PendingOk;
  }

  lemma MintMinting(hash: Hash, s: State, a: SshAct)
    requires MintingOk(hash, s) && SshEnabled(s, a) && a.Mint?
    ensures MintingOk(hash, SshNext(hash, s, a))
    ensures EnrollmentOk(hash, SshNext(hash, s, a), a.token, SshNext(hash, s, a).tokens[a.token])
  {
    hide LastUnknown;
    JobsStay(hash, s, SshNext(hash, s, a));
  }

  lemma RestMinting(hash: Hash, s: State, a: SshAct)
    requires MintingOk(hash, s) && SshEnabled(s, a) && !a.Mint? && !a.Take?
    ensures MintingOk(hash, SshNext(hash, s, a))
  {
    hide FromTake, AfterOffer;
    JobsStay(hash, s, SshNext(hash, s, a));
  }

  lemma WebMinting(hash: Hash, s: State, a: WebAct)
    requires MintingOk(hash, s) && WebEnabled(s, a)
    ensures MintingOk(hash, WebNext(s, a))
  {
    hide FromTake;
    JobsStay(hash, s, WebNext(s, a));
  }

  /** Tokens, visits and keys that stay keep their origin while the log grows. */
  lemma TokensStay(hash: Hash, s: State, t: State)
    requires TokensOk(hash, s) && s.log <= t.log
    requires forall token :: token in s.minted ==> token in t.minted && t.minted[token] == s.minted[token]
    ensures forall token :: token in s.tokens ==> EnrollmentOk(hash, t, token, s.tokens[token])
    ensures forall b :: b in s.visits && s.visits[b].HasEnrollment? ==>
      EnrollmentOk(hash, t, s.visits[b].token, s.visits[b].e)
  {
    hide LastUnknown, FromTake;
    forall token | token in s.tokens
      ensures EnrollmentOk(hash, t, token, s.tokens[token])
    {
      EnrollmentStays(hash, s, t, token, s.tokens[token]);
    }
    forall b | b in s.visits && s.visits[b].HasEnrollment?
      ensures EnrollmentOk(hash, t, s.visits[b].token, s.visits[b].e)
    {
      EnrollmentStays(hash, s, t, s.visits[b].token, s.visits[b].e);
    }
  }

  lemma TokensSsh(hash: Hash, s: State, a: SshAct)
    requires MintingOk(hash, s) && TokensOk(hash, s) && SshEnabled(s, a)
    ensures TokensOk(hash, SshNext(hash, s, a))
  {
    hide EnrollmentOk, AfterOffer, FreshPending, FromTake;
    TokensStay(hash, s, SshNext(hash, s, a));
    if a.Mint? { MintMinting(hash, s, a); }
  }

  lemma TokensWeb(hash: Hash, s: State, a: WebAct)
    requires TokensOk(hash, s) && WebEnabled(s, a)
    ensures TokensOk(hash, WebNext(s, a))
  {
    hide EnrollmentOk;
    TokensStay(hash, s, WebNext(s, a));
  }

  lemma KeysStay(hash: Hash, s: State, t: State)
    requires KeysOk(hash, s) && s.log <= t.log
    requires forall token :: token in s.minted ==> token in t.minted && t.minted[token] == s.minted[token]
    ensures forall fp :: fp in s.keys ==>
      && s.addedBy[fp] in t.minted
      && FromTake(hash, t.log, t.minted[s.addedBy[fp]], fp, s.keys[fp].keyType, s.keys[fp].publicKey)
  {
    hide LastUnknown;
    forall fp | fp in s.keys
      ensures FromTake(hash, t.log, s.minted[s.addedBy[fp]], fp, s.keys[fp].keyType, s.keys[fp].publicKey)
    {
      TakeStays(hash, s.log, t.log[|s.log|..], s.minted[s.addedBy[fp]], fp, s.keys[fp].keyType, s.keys[fp].publicKey);
      assert t.log == s.log + t.log[|s.log|..];
    }
  }

  lemma KeysSsh(hash: Hash, s: State, a: SshAct)
    requires KeysOk(hash, s) && SshEnabled(s, a)
    ensures KeysOk(hash, SshNext(hash, s, a))
  {
    hide FromTake;
    KeysStay(hash, s, SshNext(hash, s, a));
  }

  lemma KeysWeb(hash: Hash, s: State, a: WebAct)
    requires TokensOk(hash, s) && KeysOk(hash, s) && WebEnabled(s, a)
    ensures KeysOk(hash, WebNext(s, a))
  {
    hide FromTake;
    KeysStay(hash, s, WebNext(s, a));
    if a.Bind? { TokensStay(hash, s, WebNext(s, a)); }
  }

  // Owners and pages

  lemma OwnersSsh(hash: Hash, s: State, a: SshAct)
    requires OwnersOk(s) && SshEnabled(s, a)
    ensures OwnersOk(SshNext(hash, s, a))
  {
    hide OwnerOf;
    forall fp
      ensures OwnerOf(s.log + SshEvents(hash, s, a), fp) == OwnerOf(s.log, fp)
    {
      var events := SshEvents(hash, s, a);
      if |events| == 1 {
        assert events == [events[0]];
        SnocOwner(s.log, events[0], fp);
      } else if |events| == 2 {
        SnocOwner(s.log, events[0], fp);
        SnocOwner(s.log + [events[0]], events[1], fp);
        assert s.log + events == s.log + [events[0]] + [events[1]];
      } else {
        assert s.log + [] == s.log;
      }
    }
  }

  lemma OwnersWeb(s: State, a: WebAct)
    requires OwnersOk(s) && WebEnabled(s, a)
    ensures OwnersOk(WebNext(s, a))
  {
    hide OwnerOf;
    forall fp
      ensures OwnerOf(WebNext(s, a).log, fp) == Owner(WebNext(s, a).keys, fp)
    {
      WebOwner(s, a, fp);
    }
  }

  lemma WebOwner(s: State, a: WebAct, fp: Fingerprint)
    requires OwnerOf(s.log, fp) == Owner(s.keys, fp) && WebEnabled(s, a)
    ensures OwnerOf(WebNext(s, a).log, fp) == Owner(WebNext(s, a).keys, fp)
  {
    hide OwnerOf;
    var events := WebEvents(s, a);
    if |events| == 0 {
      assert s.log + events == s.log;
    } else {
      SnocOwner(s.log, events[0], fp);
      if |events| == 2 {
        SnocOwner(s.log + [events[0]], events[1], fp);
        assert s.log + events == s.log + [events[0]] + [events[1]];
      }
    }
  }

  /** What was shown before stays what it was. */
  lemma PagesStay(log: seq<Event>, more: seq<Event>)
    requires PagesOk(log) && log <= more
    ensures forall i :: 0 <= i < |log| && more[i].ShownSuccess? ==>
      OwnerOf(more[..i], more[i].fingerprint) == Some(more[i].userId)
  {
    hide OwnerOf;
    forall i | 0 <= i < |log| && more[i].ShownSuccess?
      ensures OwnerOf(more[..i], more[i].fingerprint) == Some(more[i].userId)
    {
      assert more[..i] == log[..i];
    }
  }

  lemma PagesSsh(hash: Hash, s: State, a: SshAct)
    requires PagesOk(s.log) && SshEnabled(s, a)
    ensures PagesOk(SshNext(hash, s, a).log)
  {
    hide OwnerOf;
    PagesStay(s.log, s.log + SshEvents(hash, s, a));
  }

  lemma PagesWeb(s: State, a: WebAct)
    requires OwnersOk(s) && PagesOk(s.log) && WebEnabled(s, a)
    ensures PagesOk(WebNext(s, a).log)
  {
    hide OwnerOf;
    var events := WebEvents(s, a);
    var more := s.log + events;
    PagesStay(s.log, more);
    if |events| == 2 {
      assert more[..|s.log| + 1] == s.log + [events[0]];
      SnocOwner(s.log, events[0], events[1].fingerprint);
    } else {
      assert more[..|s.log|] == s.log;
    }
  }

  // Versions of the key table, and what offers read from them

  lemma VersionsStay(s: State, more: seq<Event>)
    requires VersionsOk(s) && s.log <= more
    ensures forall v :: 0 <= v < |s.versions| ==> s.versions[v].asOf <= |more| && VersionOk(more, s.versions[v])
  {
    hide OwnerOf;
    forall v | 0 <= v < |s.versions|
      ensures s.versions[v].asOf <= |more| && VersionOk(more, s.versions[v])
    {
      assert more[..s.versions[v].asOf] == s.log[..s.versions[v].asOf];
    }
  }

  lemma OffersStay(hash: Hash, log: seq<Event>, more: seq<Event>)
    requires OffersOk(hash, log) && log <= more
    ensures forall i :: 0 <= i < |log| && more[i].Offered? ==> OfferOk(hash, more, i)
  {
    hide OwnerOf;
    forall i | 0 <= i < |log| && more[i].Offered?
      ensures OfferOk(hash, more, i)
    {
      assert OfferOk(hash, log, i);
      assert more[..more[i].asOf] == log[..more[i].asOf];
    }
  }

  lemma AddsStay(log: seq<Event>, more: seq<Event>)
    requires AddsOk(log) && log <= more
    ensures forall i :: 0 <= i < |log| && more[i].KeyAdded? ==> OwnerOf(more[..i], more[i].fingerprint) == None
  {
    hide OwnerOf;
    forall i | 0 <= i < |log| && more[i].KeyAdded?
      ensures OwnerOf(more[..i], more[i].fingerprint) == None
    {
      assert more[..i] == log[..i];
    }
  }

  lemma ReadsSsh(hash: Hash, s: State, a: SshAct)
    requires VersionsOk(s) && OffersOk(hash, s.log) && AddsOk(s.log) && SshEnabled(s, a)
    ensures var t := SshNext(hash, s, a); VersionsOk(t) && OffersOk(hash, t.log) && AddsOk(t.log)
  {
    var more := s.log + SshEvents(hash, s, a);
    VersionsStay(s, more);
    OffersStay(hash, s.log, more);
    AddsStay(s.log, more);
    hide OwnerOf, PendingAfter, MintingAfter, WithToken;
    if a.Offer? {
      var v := s.versions[a.seen];
      assert VersionOk(s.log, v);
      assert more[..v.asOf] == s.log[..v.asOf];
    }
  }

  lemma VersionsWeb(hash: Hash, s: State, a: WebAct)
    requires OwnersOk(s) && KeysOk(hash, s) && VersionsOk(s) && WebEnabled(s, a)
    ensures VersionsOk(WebNext(s, a))
  {
    var t := WebNext(s, a);
    VersionsStay(s, t.log);
    OwnersWeb(s, a);
    KeysNamed(hash, s, a);
    hide OwnerOf, VisitsAfter, AddedByAfter, KeysAfter, WebEvents, AddsKey, KeysOk;
    assert t.log[..|t.log|] == t.log;
    assert VersionOk(t.log, Version(t.keys, |t.log|));
    hide VersionOk;
  }

  lemma KeysNamed(hash: Hash, s: State, a: WebAct)
    requires KeysOk(hash, s) && WebEnabled(s, a)
    ensures forall fp :: fp in KeysAfter(s, a) ==> KeysAfter(s, a)[fp].fingerprint == fp
  {
    hide FromTake;
  }

  lemma OffersWeb(hash: Hash, s: State, a: WebAct)
    requires OffersOk(hash, s.log) && WebEnabled(s, a)
    ensures OffersOk(hash, WebNext(s, a).log)
  {
    OffersStay(hash, s.log, WebNext(s, a).log);
    hide OfferOk;
  }

  lemma AddsWeb(s: State, a: WebAct)
    requires OwnersOk(s) && AddsOk(s.log) && WebEnabled(s, a)
    ensures AddsOk(WebNext(s, a).log)
  {
    var more := s.log + WebEvents(s, a);
    AddsStay(s.log, more);
    hide OwnerOf;
    assert more[..|s.log|] == s.log;
  }

  // Uses of tokens

  lemma MintedStays(log: seq<Event>, more: seq<Event>, n: nat, m: nat, token: Token, expiresAt: int)
    requires n <= |log| && log <= more && n <= m <= |more| && MintedFor(log, n, token, expiresAt)
    ensures MintedFor(more, m, token, expiresAt)
  {
    var i :| 0 <= i < n && log[i].Minted? && log[i].token == token && expiresAt == log[i].at + TOKEN_TTL;
    assert more[i] == log[i];
  }

  lemma InTimeStays(log: seq<Event>, more: seq<Event>, j: nat)
    requires log <= more && j < |log| && log[j].Consumed? && InTime(log, j)
    ensures more[j].Consumed? && InTime(more, j)
  {
    var expiresAt :| MintedFor(log, j, log[j].token, expiresAt) && log[j].at < expiresAt;
    MintedStays(log, more, j, j, log[j].token, expiresAt);
  }

  lemma MintedNow(log: seq<Event>, e: Event)
    requires e.Minted?
    ensures MintedFor(log + [e], |log| + 1, e.token, e.at + TOKEN_TTL)
  {
    assert (log + [e])[|log|] == e;
  }

  /** What was said of the old log is still true of a longer one. */
  lemma TimesStay(s: State, t: State)
    requires TimesOk(s) && s.log <= t.log
    ensures forall token :: token in s.tokens ==> MintedFor(t.log, |t.log|, token, s.tokens[token].expiresAt)
    ensures forall j :: 0 <= j < |s.log| && t.log[j].Consumed? ==> InTime(t.log, j)
  {
    hide MintedFor, InTime;
    forall token | token in s.tokens
      ensures MintedFor(t.log, |t.log|, token, s.tokens[token].expiresAt)
    {
      MintedStays(s.log, t.log, |s.log|, |t.log|, token, s.tokens[token].expiresAt);
    }
    forall j | 0 <= j < |s.log| && t.log[j].Consumed?
      ensures InTime(t.log, j)
    {
      InTimeStays(s.log, t.log, j);
    }
  }

  lemma TokenSsh(hash: Hash, s: State, a: SshAct, token: Token)
    requires TokenIs(s, token, Outstanding(s.log, token)) && SshEnabled(s, a)
    ensures TokenIs(SshNext(hash, s, a), token, Outstanding(SshNext(hash, s, a).log, token))
  {
    hide Outstanding, PendingAfter, MintingAfter;
    var events := SshEvents(hash, s, a);
    if |events| == 1 {
      assert events == [events[0]];
      SnocIssue(s.log, events[0], token);
    } else if |events| == 2 {
      SnocIssue(s.log, events[0], token);
      SnocIssue(s.log + [events[0]], events[1], token);
      assert s.log + events == s.log + [events[0]] + [events[1]];
    } else {
      assert s.log + events == s.log;
    }
  }

  lemma IssuedSsh(hash: Hash, s: State, a: SshAct)
    requires IssuedOk(s) && SshEnabled(s, a)
    ensures IssuedOk(SshNext(hash, s, a))
  {
    hide TokenIs, Outstanding, SshNext;
    forall token
      ensures TokenIs(SshNext(hash, s, a), token, Outstanding(SshNext(hash, s, a).log, token))
    {
      TokenSsh(hash, s, a, token);
    }
  }

  lemma TokenWeb(s: State, a: WebAct, token: Token)
    requires TokenIs(s, token, Outstanding(s.log, token)) && WebEnabled(s, a)
    ensures TokenIs(WebNext(s, a), token, Outstanding(WebNext(s, a).log, token))
  {
    hide Outstanding, VisitsAfter, KeysAfter, AddedByAfter;
    var events := WebEvents(s, a);
    if |events| == 1 {
      assert events == [events[0]];
      SnocIssue(s.log, events[0], token);
    } else if |events| == 2 {
      SnocIssue(s.log, events[0], token);
      SnocIssue(s.log + [events[0]], events[1], token);
      assert s.log + events == s.log + [events[0]] + [events[1]];
    } else {
      assert s.log + events == s.log;
    }
  }

  lemma IssuedWeb(s: State, a: WebAct)
    requires IssuedOk(s) && WebEnabled(s, a)
    ensures IssuedOk(WebNext(s, a))
  {
    hide TokenIs, Outstanding, WebNext;
    forall token
      ensures TokenIs(WebNext(s, a), token, Outstanding(WebNext(s, a).log, token))
    {
      TokenWeb(s, a, token);
    }
  }

  lemma TimesSsh(hash: Hash, s: State, a: SshAct)
    requires TimesOk(s) && SshEnabled(s, a)
    ensures TimesOk(SshNext(hash, s, a))
  {
    hide MintedFor, InTime, AfterOffer, FreshPending;
    TimesStay(s, SshNext(hash, s, a));
    if a.Mint? {
      MintedNow(s.log + [TokensSwept(a.sweepAt)], Minted(a.token, a.job, a.now));
      assert SshNext(hash, s, a).log == s.log + [TokensSwept(a.sweepAt)] + [Minted(a.token, a.job, a.now)];
    }
  }

  lemma TimesWeb(s: State, a: WebAct)
    requires TimesOk(s) && WebEnabled(s, a)
    ensures TimesOk(WebNext(s, a))
  {
    hide MintedFor, InTime;
    var t := WebNext(s, a);
    TimesStay(s, t);
    if ConsumesLive(s, a) {
      MintedStays(s.log, t.log, |s.log|, |s.log|, a.token, s.tokens[a.token].expiresAt);
      ConsumedNow(t.log, |s.log|, s.tokens[a.token].expiresAt);
    }
  }

  lemma ConsumedNow(log: seq<Event>, j: nat, expiresAt: int)
    requires j < |log| && log[j].Consumed? && MintedFor(log, j, log[j].token, expiresAt) && log[j].at < expiresAt
    ensures InTime(log, j)
  {
  }

  lemma OnceSsh(hash: Hash, s: State, a: SshAct)
    requires OnceOk(s) && SshEnabled(s, a)
    ensures OnceOk(SshNext(hash, s, a))
  {
    hide AfterOffer, FreshPending;
  }

  /** Only Complete takes tokens out, and it logs the one that it consumed. */
  lemma WebUses(s: State, a: WebAct)
    requires WebEnabled(s, a)
    ensures forall token :: token in WebNext(s, a).tokens ==> token in s.tokens
    ensures ConsumesLive(s, a) ==> a.token in s.tokens && a.token !in WebNext(s, a).tokens
    ensures ConsumesLive(s, a) ==> WebEvents(s, a) == [Consumed(a.token, a.visitor.userId, a.now)]
    ensures !ConsumesLive(s, a) ==> forall e :: e in WebEvents(s, a) ==> !e.Consumed?
  {
    hide Expired;
  }

  lemma OnceWeb(s: State, a: WebAct)
    requires OnceOk(s) && WebEnabled(s, a)
    ensures OnceOk(WebNext(s, a))
  {
    WebUses(s, a);
    hide WebEvents, ConsumesLive;
    var more := s.log + WebEvents(s, a);
    if !ConsumesLive(s, a) {
      assert forall i :: |s.log| <= i < |more| ==> more[i] in WebEvents(s, a);
    }
  }

  // All runs

  lemma InitialInv(hash: Hash)
    ensures Inv(hash, INITIAL)
  {
  }

  lemma SshInv(hash: Hash, s: State, a: SshAct)
    requires Inv(hash, s) && SshEnabled(s, a)
    ensures Inv(hash, SshNext(hash, s, a))
  {
    hide SshNext, PendingOk, MintingOk, TokensOk, KeysOk, OwnersOk, TimesOk, OnceOk, PagesOk;
    hide VersionsOk, OffersOk, AddsOk, IssuedOk;
    PendingSsh(hash, s, a);
    if a.Take? {
      TakeMinting(hash, s, a);
    } else if a.Mint? {
      MintMinting(hash, s, a);
    } else {
      RestMinting(hash, s, a);
    }
    TokensSsh(hash, s, a);
    KeysSsh(hash, s, a);
    OwnersSsh(hash, s, a);
    PagesSsh(hash, s, a);
    TimesSsh(hash, s, a);
    OnceSsh(hash, s, a);
    ReadsSsh(hash, s, a);
    IssuedSsh(hash, s, a);
  }

  lemma WebInv(hash: Hash, s: State, a: WebAct)
    requires Inv(hash, s) && WebEnabled(s, a)
    ensures Inv(hash, WebNext(s, a))
  {
    hide WebNext, PendingOk, MintingOk, TokensOk, KeysOk, OwnersOk, TimesOk, OnceOk, PagesOk;
    hide VersionsOk, OffersOk, AddsOk, IssuedOk;
    PendingWeb(hash, s, a);
    WebMinting(hash, s, a);
    TokensWeb(hash, s, a);
    KeysWeb(hash, s, a);
    OwnersWeb(s, a);
    PagesWeb(s, a);
    TimesWeb(s, a);
    OnceWeb(s, a);
    VersionsWeb(hash, s, a);
    OffersWeb(hash, s, a);
    AddsWeb(s, a);
    IssuedWeb(s, a);
  }

  lemma {:induction false} RunInv(hash: Hash, s: State, run: seq<Step>)
    requires Inv(hash, s) && Runs(hash, s, run)
    ensures Inv(hash, After(hash, s, run))
    decreases |run|
  {
    hide Inv;
    if run != [] {
      if run[0].Ssh? { SshInv(hash, s, run[0].x); } else { WebInv(hash, s, run[0].w); }
      RunInv(hash, Next(hash, s, run[0]), run[1..]);
    }
  }
}
