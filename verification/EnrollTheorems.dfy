/** What enrollment promises over every run of handshakes, browsers and the operator. */
module EnrollTheorems {
  import opened Basics
  import opened EnrollStores
  import opened EnrollMachine

  ghost predicate Reachable(hash: Hash, s: State) {
    exists run :: Runs(hash, INITIAL, run) && After(hash, INITIAL, run) == s
  }

  lemma ReachableInv(hash: Hash, s: State)
    requires Reachable(hash, s)
    ensures Inv(hash, s)
  {
    InitialInv(hash);
    hide Inv, After, Runs;
    var run :| Runs(hash, INITIAL, run) && After(hash, INITIAL, run) == s;
    RunInv(hash, INITIAL, run);
  }

  /** The part of the log that belongs to one handshake. */
  function OwnEvents(log: seq<Event>, sid: Sid): seq<Event> {
    if log == [] then []
    else
      var last := log[|log| - 1];
      OwnEvents(log[..|log| - 1], sid)
      + (if (last.Offered? || last.Taken? || last.Dropped?) && last.sid == sid then [last] else [])
  }

  /** What a handshake is prompted for depends on that handshake's own events only. */
  lemma {:induction false} LastUnknownIsLocal(hash: Hash, log: seq<Event>, sid: Sid)
    ensures LastUnknown(hash, log, sid) == LastUnknown(hash, OwnEvents(log, sid), sid)
  {
    if log != [] {
      var before, last := log[..|log| - 1], log[|log| - 1];
      LastUnknownIsLocal(hash, before, sid);
      var own := OwnEvents(before, sid);
      if (last.Offered? || last.Taken? || last.Dropped?) && last.sid == sid {
        SnocLog(hash, own, last, sid);
        assert OwnEvents(log, sid) == own + [last];
      } else {
        assert OwnEvents(log, sid) == own + [] == own;
      }
    }
  }

  /** Every key in the table came in through a token that was minted for one prompt of one handshake,
      and it is the last unknown key that this handshake offered before the prompt, at most ten seconds
      before: same type, same bytes, and the hash of those bytes as its fingerprint. Different tokens
      come from different prompts. */
  lemma KeyProvenance(hash: Hash, s: State, fp: Fingerprint)
    requires Reachable(hash, s) && fp in s.keys
    ensures fp in s.addedBy && s.addedBy[fp] in s.minted
    ensures var job, row := s.minted[s.addedBy[fp]], s.keys[fp];
      && job < |s.log| && s.log[job].Taken?
      && var prompt := LastUnknown(hash, OwnEvents(s.log[..job], s.log[job].sid), s.log[job].sid);
      && prompt.Some? && prompt.value.key == PublicKey(row.keyType, row.publicKey)
      && s.log[job].at - prompt.value.at <= 10 * SECOND
      && row.fingerprint == fp == hash(row.publicKey)
    ensures forall t, u :: t in s.minted && u in s.minted && s.minted[t] == s.minted[u] ==> t == u
  {
    ReachableInv(hash, s);
    hide LastUnknown;
    var job := s.minted[s.addedBy[fp]];
    LastUnknownIsLocal(hash, s.log[..job], s.log[job].sid);
  }

  /** A token is consumed at most once, after it was minted and before its ten minutes are up. */
  lemma TokensSpentOnceInTime(hash: Hash, s: State, j: nat)
    requires Reachable(hash, s) && j < |s.log| && s.log[j].Consumed?
    ensures forall i :: 0 <= i < |s.log| && i != j && s.log[i].Consumed? ==> s.log[i].token != s.log[j].token
    ensures exists i :: 0 <= i < j && s.log[i].Minted? && s.log[i].token == s.log[j].token
              && s.log[j].at < s.log[i].at + TOKEN_TTL
    ensures s.log[j].token !in s.tokens
  {
    ReachableInv(hash, s);
    var expiresAt :| MintedFor(s.log, j, s.log[j].token, expiresAt) && s.log[j].at < expiresAt;
    var i :| 0 <= i < j && s.log[i].Minted? && s.log[i].token == s.log[j].token && expiresAt == s.log[i].at + TOKEN_TTL;
  }

  /** The other way round: the last unknown key of a handshake, if neither its own prompt nor any sweep comes
      more than ten seconds after the offer, is what the handshake is prompted for. */
  lemma PromptedForLastUnknown(hash: Hash, s: State, sid: Sid, now: int)
    requires Reachable(hash, s) && LastUnknown(hash, s.log, sid).Some?
    requires now - LastUnknown(hash, s.log, sid).value.at <= 10 * SECOND
    requires forall i :: 0 <= i < |s.log| && s.log[i].Swept? ==>
      s.log[i].at - LastUnknown(hash, s.log, sid).value.at <= 10 * SECOND
    ensures var p, t := LastUnknown(hash, s.log, sid).value, SshNext(hash, s, Take(sid, now));
      t.minting == s.minting[|s.log| + 1 := Pending(hash(p.key.blob), p.key.keyType, p.key.blob, p.at)]
  {
    assert PendingOk(hash, s) by { ReachableInv(hash, s); }
    FreshIsRecorded(hash, s.log, sid);
    hide LastUnknown, Recorded, Reachable;
    assert RecordIs(hash, s.pending, sid, Recorded(hash, s.log, sid));
  }

  /** Nothing after event number m presents the token that it minted, or sweeps after its ten minutes. */
  ghost predicate LeftAlone(log: seq<Event>, m: nat)
    requires m < |log| && log[m].Minted?
  {
    forall i :: m < i < |log| ==>
      && !((log[i].Consumed? || log[i].Rejected?) && log[i].token == log[m].token)
      && (log[i].TokensSwept? ==> log[i].at < log[m].at + 600 * SECOND)
  }

  lemma {:induction false} OutstandingUntil(log: seq<Event>, m: nat, n: nat)
    requires m < n <= |log| && log[m].Minted? && LeftAlone(log, m)
    requires forall i :: m < i < |log| && log[i].Minted? ==> log[i].token != log[m].token
    ensures Outstanding(log[..n], log[m].token) == Some(Issue(log[m].job, log[m].at + 600 * SECOND))
    decreases n
  {
    assert log[..n] == log[..n - 1] + [log[n - 1]];
    SnocIssue(log[..n - 1], log[n - 1], log[m].token);
    hide Outstanding;
    if m < n - 1 { OutstandingUntil(log, m, n - 1); }
  }

  /** A token stays good for ten minutes, whatever other tokens are minted or spent meanwhile: it is still
      there, and a signed-in visitor who presents it in time consumes it. */
  lemma TokenStaysGood(hash: Hash, s: State, m: nat, b: Browser, userId: int, now: int)
    requires Reachable(hash, s) && m < |s.log| && s.log[m].Minted? && LeftAlone(s.log, m)
    requires now < s.log[m].at + 600 * SECOND && b !in s.visits
    ensures var token := s.log[m].token;
      var t := WebNext(s, Complete(b, token, SignedIn(userId), now));
      && token in s.tokens && token in s.minted && s.minted[token] == s.log[m].job
      && t.visits == s.visits[b := HasEnrollment(userId, token, s.tokens[token])]
      && t.log == s.log + [Consumed(token, userId, now)]
  {
    ReachableInv(hash, s);
    assert TokenIs(s, s.log[m].token, Outstanding(s.log, s.log[m].token));
    assert OnceOk(s);
    hide Inv, Reachable, Outstanding, LeftAlone;
    OutstandingUntil(s.log, m, |s.log|);
    assert s.log[..|s.log|] == s.log;
  }

  /** Enrollment works: from any state, an unknown key that is offered and prompted for within ten seconds, and
      whose token is presented within ten minutes by somebody signed in, ends up as that user's key. */
  lemma EnrollmentCompletes(
    hash: Hash, s: State, sid: Sid, key: PublicKey, seen: nat, offeredAt: int, promptedAt: int, token: Token,
    sweptAt: int, mintedAt: int, b: Browser, userId: int, presentedAt: int, keyLabel: string, addedAt: int)
    returns (run: seq<Step>, end: State)
    requires seen < |s.versions| && hash(key.blob) !in s.versions[seen].keys && hash(key.blob) !in s.keys
    requires token !in s.minted && b !in s.visits
    requires promptedAt - offeredAt <= 10 * SECOND && presentedAt < mintedAt + 600 * SECOND
    ensures run == [Ssh(Offer(sid, key, seen, true, offeredAt)), Ssh(Take(sid, promptedAt))]
                   + [Ssh(Mint(|s.log| + 2, token, sweptAt, mintedAt)),
                      Web(Complete(b, token, SignedIn(userId), presentedAt)),
                      Web(Bind(b, keyLabel, addedAt, true))]
    ensures Runs(hash, s, run) && end == After(hash, s, run)
    ensures var fp := hash(key.blob);
      && end.keys == s.keys[fp := KeyRow(userId, fp, key.keyType, key.blob, keyLabel, addedAt / SECOND)]
      && end.log != [] && end.log[|end.log| - 1] == ShownSuccess(fp, userId)
  {
    var first, prompted := OfferAndTake(hash, s, sid, key, seen, offeredAt, promptedAt);
    var second;
    second, end := MintToBind(
      hash, prompted, |s.log| + 2, token, sweptAt, mintedAt, b, userId, presentedAt, keyLabel, addedAt);
    run := first + second;
    hide Next, Enabled, Runs, After;
    RunJoin(hash, s, first, second);
  }

  lemma OfferAndTake(hash: Hash, s: State, sid: Sid, key: PublicKey, seen: nat, offeredAt: int, promptedAt: int)
    returns (run: seq<Step>, end: State)
    requires seen < |s.versions| && hash(key.blob) !in s.versions[seen].keys
    requires promptedAt - offeredAt <= 10 * SECOND
    ensures run == [Ssh(Offer(sid, key, seen, true, offeredAt)), Ssh(Take(sid, promptedAt))]
    ensures Runs(hash, s, run) && end == After(hash, s, run)
    ensures end.minting == s.minting[|s.log| + 2 := Pending(hash(key.blob), key.keyType, key.blob, offeredAt)]
    ensures end.keys == s.keys && end.minted == s.minted && end.visits == s.visits
  {
    run := [Ssh(Offer(sid, key, seen, true, offeredAt)), Ssh(Take(sid, promptedAt))];
    var s1 := Next(hash, s, run[0]);
    assert s1.pending[sid] == Pending(hash(key.blob), key.keyType, key.blob, offeredAt);
    assert |s1.log| == |s.log| + 1;
    end := Next(hash, s1, run[1]);
    Chain(hash, s, run, [s1, end]);
  }

  lemma MintToBind(
    hash: Hash, s: State, job: nat, token: Token, sweptAt: int, mintedAt: int, b: Browser, userId: int,
    presentedAt: int, keyLabel: string, addedAt: int)
    returns (run: seq<Step>, end: State)
    requires job in s.minting && s.minting[job].fingerprint !in s.keys && token !in s.minted && b !in s.visits
    requires presentedAt < mintedAt + 600 * SECOND
    ensures run == [Ssh(Mint(job, token, sweptAt, mintedAt)),
                    Web(Complete(b, token, SignedIn(userId), presentedAt)),
                    Web(Bind(b, keyLabel, addedAt, true))]
    ensures Runs(hash, s, run) && end == After(hash, s, run)
    ensures var p := s.minting[job];
      end.keys == s.keys[p.fingerprint :=
        KeyRow(userId, p.fingerprint, p.keyType, p.blob, keyLabel, addedAt / SECOND)]
    ensures end.log != [] && end.log[|end.log| - 1] == ShownSuccess(s.minting[job].fingerprint, userId)
  {
    hide FreshPending;
    var p := s.minting[job];
    run := [Ssh(Mint(job, token, sweptAt, mintedAt)),
            Web(Complete(b, token, SignedIn(userId), presentedAt)),
            Web(Bind(b, keyLabel, addedAt, true))];
    var s1 := Next(hash, s, run[0]);
    assert s1.tokens[token] == Enrollment(p.fingerprint, p.keyType, p.blob, mintedAt + 600 * SECOND);
    var s2 := Next(hash, s1, run[1]);
    assert s2.visits[b] == HasEnrollment(userId, token, s1.tokens[token]);
    hide PendingAfter, MintingAfter, WithToken, SshEvents;
    end := Next(hash, s2, run[2]);
    Chain(hash, s, run, [s1, s2, end]);
  }

  lemma {:induction false} RunJoin(hash: Hash, s: State, first: seq<Step>, second: seq<Step>)
    requires Runs(hash, s, first) && Runs(hash, After(hash, s, first), second)
    ensures Runs(hash, s, first + second)
    ensures After(hash, s, first + second) == After(hash, After(hash, s, first), second)
    decreases |first|
  {
    hide Next, Enabled;
    if first == [] {
      assert first + second == second;
    } else {
      RunJoin(hash, Next(hash, s, first[0]), first[1..], second);
      assert (first + second)[1..] == first[1..] + second;
    }
  }

  /** A run written out state by state. */
  lemma {:induction false} Chain(hash: Hash, s: State, run: seq<Step>, states: seq<State>)
    requires run != [] && |states| == |run|
    requires Enabled(s, run[0]) && Next(hash, s, run[0]) == states[0]
    requires forall i :: 0 < i < |run| ==>
      Enabled(states[i - 1], run[i]) && Next(hash, states[i - 1], run[i]) == states[i]
    ensures Runs(hash, s, run) && After(hash, s, run) == states[|run| - 1]
    decreases |run|
  {
    hide Next, Enabled;
    if |run| > 1 {
      Chain(hash, states[0], run[1..], states[1..]);
    } else {
      assert run[1..] == [];
    }
  }

  /** Enrolling a key again that is already one's own succeeds and changes no key. */
  lemma OwnKeyAgain(hash: Hash, s: State, b: Browser, token: Token, userId: int, now: int, keyLabel: string, at: int)
    requires b !in s.visits && token in s.tokens && now < s.tokens[token].expiresAt
    requires s.tokens[token].fingerprint in s.keys && s.keys[s.tokens[token].fingerprint].userId == userId
    ensures var run := [
        Web(Complete(b, token, SignedIn(userId), now)), Web(Bind(b, keyLabel, at, true)), Web(Recheck(b, true))];
      && Runs(hash, s, run)
      && var end := After(hash, s, run);
      && end.keys == s.keys
      && end.log != [] && end.log[|end.log| - 1] == ShownSuccess(s.tokens[token].fingerprint, userId)
  {
    var complete := Web(Complete(b, token, SignedIn(userId), now));
    var bind, recheck := Web(Bind(b, keyLabel, at, true)), Web(Recheck(b, true));
    var s1 := Next(hash, s, complete);
    var s2 := Next(hash, s1, bind);
    var s3 := Next(hash, s2, recheck);
    Chain(hash, s, [complete, bind, recheck], [s1, s2, s3]);
  }

  /** The start page, or a visitor who is sent to sign in or has no user row. */
  predicate SignedOut(a: Step) {
    a.Web? && (a.w.Start? || (a.w.Complete? && !a.w.visitor.SignedIn?))
  }

  function WithoutSignedOut(run: seq<Step>): seq<Step> {
    if run == [] then []
    else (if SignedOut(run[0]) then [] else [run[0]]) + WithoutSignedOut(run[1..])
  }

  /** Whatever visitors do who are not signed in, and however often, every run ends as it would have ended
      without them: they spend no token and add no key. */
  lemma {:induction false} SignedOutChangesNothing(hash: Hash, s: State, run: seq<Step>)
    requires Runs(hash, s, run)
    ensures Runs(hash, s, WithoutSignedOut(run))
    ensures After(hash, s, WithoutSignedOut(run)) == After(hash, s, run)
    decreases |run|
  {
    if run != [] {
      var t := Next(hash, s, run[0]);
      if SignedOut(run[0]) {
        assert s.log + [] == s.log;
        assert t == s;
        assert WithoutSignedOut(run) == WithoutSignedOut(run[1..]);
      } else {
        assert WithoutSignedOut(run) == [run[0]] + WithoutSignedOut(run[1..]);
        assert WithoutSignedOut(run)[1..] == WithoutSignedOut(run[1..]);
      }
      hide Next, Enabled, SignedOut;
      SignedOutChangesNothing(hash, t, run[1..]);
    }
  }

  /** Every success page was shown to the owner of the key at that moment, by the log of additions and
      removals alone; and the table agrees with that log. */
  lemma SuccessMeansOwner(hash: Hash, s: State)
    requires Reachable(hash, s)
    ensures forall i :: 0 <= i < |s.log| && s.log[i].ShownSuccess? ==>
      OwnerOf(s.log[..i], s.log[i].fingerprint) == Some(s.log[i].userId)
    ensures forall fp :: OwnerOf(s.log, fp) == Owner(s.keys, fp)
  {
    ReachableInv(hash, s);
  }

  ghost predicate NotRemoved(log: seq<Event>, low: nat, high: nat, fp: Fingerprint)
    requires high <= |log|
  {
    forall i :: low <= i < high ==> log[i] != KeyRemoved(fp)
  }

  lemma AddsReachable(hash: Hash, s: State)
    requires Reachable(hash, s)
    ensures AddsOk(s.log)
  {
    ReachableInv(hash, s);
  }

  /** Who owns a key stays its owner until it is removed: nothing is ever added over it. */
  lemma {:induction false} OwnerUntilRemoved(hash: Hash, s: State, low: nat, high: nat, fp: Fingerprint)
    requires Reachable(hash, s) && low <= high <= |s.log|
    requires OwnerOf(s.log[..low], fp).Some? && NotRemoved(s.log, low, high, fp)
    ensures OwnerOf(s.log[..high], fp) == OwnerOf(s.log[..low], fp)
    decreases high
  {
    if low < high {
      hide Reachable, OwnerOf;
      OwnerUntilRemoved(hash, s, low, high - 1, fp);
      assert s.log[..high] == s.log[..high - 1] + [s.log[high - 1]];
      SnocOwner(s.log[..high - 1], s.log[high - 1], fp);
      AddsReachable(hash, s);
    }
  }

  /** The publickey callback accepts the key and takes its holder for this user. */
  predicate Authenticates(hash: Hash, e: Event, userId: int) {
    e.Offered? && e.found.Found? && e.found.row.fingerprint == hash(e.key.blob) && e.found.row.userId == userId
  }

  /** Unless its lookup fails, an offered key is accepted as a user's exactly when, in the version of the table
      that was read, additions and removals had left it to that user; and if it was not removed since then, it
      still is that user's when it is accepted. */
  lemma AuthenticatedAsOwner(hash: Hash, s: State, i: nat, userId: int)
    requires Reachable(hash, s) && i < |s.log| && s.log[i].Offered?
    ensures var e := s.log[i];
      var fp := hash(e.key.blob);
      && e.asOf <= i
      && (Authenticates(hash, e, userId) <==>
            !e.found.LookupFailed? && OwnerOf(s.log[..e.asOf], fp) == Some(userId))
      && (Authenticates(hash, e, userId) && NotRemoved(s.log, e.asOf, i, fp) ==>
            OwnerOf(s.log[..i], fp) == Some(userId))
  {
    var e := s.log[i];
    var fp := hash(e.key.blob);
    assert OfferOk(hash, s.log, i) by { ReachableInv(hash, s); }
    hide Reachable, OwnerOf;
    if Authenticates(hash, e, userId) && NotRemoved(s.log, e.asOf, i, fp) {
      OwnerUntilRemoved(hash, s, e.asOf, i, fp);
    }
  }

  lemma LogGrows(hash: Hash, s: State, run: seq<Step>)
    requires Runs(hash, s, run)
    ensures s.log <= After(hash, s, run).log
    decreases |run|
  {
    if run != [] {
      LogGrows(hash, Next(hash, s, run[0]), run[1..]);
    }
  }

  /** A step that does not remove the key leaves its row alone. */
  lemma RowStays(hash: Hash, s: State, a: Step, fp: Fingerprint)
    requires Enabled(s, a) && fp in s.keys
    requires NotRemoved(Next(hash, s, a).log, |s.log|, |Next(hash, s, a).log|, fp)
    ensures fp in Next(hash, s, a).keys && Next(hash, s, a).keys[fp] == s.keys[fp]
  {
    var t := Next(hash, s, a);
    assert |t.log| > |s.log| ==> t.log[|s.log|] != KeyRemoved(fp);
  }

  /** Between two states of a run a fingerprint keeps its row, and so its owner, unless the operator
      removed it in between. */
  lemma {:induction false} OwnerChangesOnlyByRemoval(hash: Hash, s: State, run: seq<Step>, fp: Fingerprint)
    requires Runs(hash, s, run) && fp in s.keys
    requires NotRemoved(After(hash, s, run).log, |s.log|, |After(hash, s, run).log|, fp)
    ensures fp in After(hash, s, run).keys && After(hash, s, run).keys[fp] == s.keys[fp]
    decreases |run|
  {
    if run != [] {
      var t, last := Next(hash, s, run[0]), After(hash, s, run);
      LogGrows(hash, t, run[1..]);
      LogGrows(hash, s, [run[0]]);
      assert NotRemoved(t.log, |s.log|, |t.log|, fp) by {
        forall i | |s.log| <= i < |t.log|
          ensures t.log[i] != KeyRemoved(fp)
        {
          assert t.log[i] == last.log[i];
        }
      }
      RowStays(hash, s, run[0], fp);
      hide Next, Enabled;
      OwnerChangesOnlyByRemoval(hash, t, run[1..], fp);
    }
  }
}
