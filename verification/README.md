# Forge proxy: models and proofs

Forge proxy signs people in, forwards their HTTP requests to upstream apps with trusted `X-Forge-*` headers, and
proxies SSH connections to upstream hosts. This project models the parts of it whose correctness depends on
interleavings, clocks or text formats, and proves what they are for. `dafny verify dfyconfig.toml` checks all of it.

**SSH channel teardown** (`ChannelMachine`, `ChannelInvariant`, `ChannelSafety`, `ChannelTheorems`,
`ChannelRuns`, `RejectedOrders`).
The six goroutines of `proxyChannel`, the main one, its two wait groups, the done-channel and the `replying` mutex are a
transition system; every label is one atomic action of a goroutine or of one of the two SSH peers, which follow sections
5.3, 5.4 and 6.10 of RFC 4254. `ChannelMachine` states in its header what is assumed of the SSH library. An invariant of
all reachable states gives: nothing is closed early, nothing is lost, every reply is written before the close, no deadlock,
and a measure that bounds every run. The same machine with the three orders that the source comment rejects has the three
bad states the comment describes.

**Sessions** (`SessionStore`, `SessionHistory`, `SessionSweep`). A class with the operations on the `sessions` table, whose
contracts tie each new table to a function of the old one; then runs of them in which each operation uses a clock captured
at any earlier time, and each pre-check of `Touch` reads any earlier version of the table.

**Key enrollment** (`EnrollStores`, `EnrollMachine`, `EnrollTheorems`). Classes for the pending keys, the tokens, the
`ssh_keys` table and the two handlers, and one machine in which any number of handshakes and browsers interleave, and each
lookup of an offered key reads any committed version of the table. What may
happen between a query for a key and its proof (section 7 of RFC 4252) is a callback that is never followed by anything.

**Rate limiter** (`RateLimit`, `RateLimitIdeal`). The class with its shared bucket objects, the bound over every window, and
agreement with an ideal limiter that is defined by windows alone and keeps no bucket.

**Upstream tables** (`Basics`, `Text`, `EntryTable`, `SshUpstreams`, `HttpUpstreams`), **roles** (`Roles`), **headers** (`Headers`,
`DisplayName`, `UpstreamView`). The parsers and codecs with their loops, each proved equal to a specification function, about which round
trips, exact acceptance conditions and independence are proved.

Where the repository's words and its code disagree, the model follows the code:

- README.md:105-109 describes a strip driven by `Connection` and by a denylist header; the code (internal/proxy/headers.go:78-156)
  strips by prefix, in the header, the trailer announcement and the trailers, and takes out the session cookie.
- internal/session/store.go:99-101 says a new row cannot exceed the lifetime cap by definition. With fractional durations it can, by
  less than a second; `SessionHistory.FormulaHoldsIff` gives exactly the durations for which the columns obey the formula.
- internal/session/store.go:199 calls a stale pre-read harmless. `SessionHistory.FastPathDiffersIff` gives the one case in which it is not.
- internal/httplog/ratelimit.go:41-43 sizes a bucket for `perMinute` requests; with `perMinute` below one the first request of every
  address still passes (`RateLimit.BoundHoldsIff`).
- internal/proxy/headers.go:200-202 calls the encoded name unambiguous. An ASCII name that begins with the literal prefix is the exception
  (`DisplayName.NameComesBackIff`, `DisplayName.ClashIff`).
- internal/proxy/headers.go:124-131 says that the session cookie is taken out. It is compared by its name as written up to the equals sign, so a
  pair with a space there stays; `Headers.SessionCookieSurvivesIff` says that nothing else does.
- internal/session/store.go:237 says an expired session is never resurrected. A `Touch` whose clock was captured before the expiry can
  commit after a `Get` has reported it (`SessionSweep.ResurrectionIff`, `SessionSweep.DelayedTouchRevives`).

## Model

| member | source | states |
|---|---|---|
| `ChannelTheorems.ReachableInv` | internal/sshproxy/forward.go:277-385 | every state reachable under the order in use satisfies the invariant of streams, locks, wait groups, requests and replies |
| `ChannelSafety.StepInv` | internal/sshproxy/forward.go:296-384 | every atomic action of every goroutine and of both peers keeps that invariant |
| `ChannelTheorems.NoEarlyClose` | internal/sshproxy/forward.go:353-381 | neither side is closed while the upstream request channel is open or undrained or a copy from the upstream is unfinished |
| `ChannelTheorems.NothingLost` | internal/sshproxy/forward.go:309-336 | in every reachable state the client holds a prefix of both streams and, from the first close on, all of each stream and all requests in order unless the state records a failed write or request |
| `ChannelRuns.EverythingArrives` | internal/sshproxy/forward.go:309-336 | over every run, told by its labels: at the first close the client holds all that the upstream wrote to stdout and to stderr and all requests it sent, unless the run contains a failure of that very write or request |
| `ChannelRuns.DeliveredIsTaken` | internal/sshproxy/forward.go:323-351 | in every run the sink of each of the four streams has as many bytes as it took, in the order written and from the first on |
| `ChannelRuns.SessionExists` | internal/sshproxy/forward.go:277-385 | for every content of both directions there is a run without any failure in which all of it arrives and proxyChannel returns |
| `ChannelTheorems.StdinEndsLast` | internal/sshproxy/forward.go:338-345 | CloseWrite reaches the upstream only behind all of the client's stdin |
| `ChannelRuns.StdinArrives` | internal/sshproxy/forward.go:338-345 | over every run, the upstream sees the end of stdin only with all that the client wrote, unless such a write fails in the run |
| `ChannelTheorems.RepliesComplete` | internal/sshproxy/forward.go:373-406 | the upstream gets an in-order prefix of the client's requests without the agent ones; each wanted reply carries the upstream's answer, or false; those that took the lock before teardown are all answered before the close |
| `ChannelRuns.AnswersArrive` | internal/sshproxy/forward.go:296-305 | over every run, what is forwarded and replied is what the client sent and the upstream answered in that run |
| `ChannelTheorems.UpstreamHearsAnswers` | internal/sshproxy/forward.go:309-321 | the client's answers go back to the upstream once each and in order |
| `ChannelRuns.UpstreamServed` | internal/sshproxy/forward.go:309-321 | each wanted upstream request that was taken gets exactly one reply, the client's answer, or false if it could not be delivered or answered, in order |
| `ChannelInvariant.ExpectedLength` | internal/sshproxy/forward.go:390-406 | one reply is due for each request that wants one |
| `ChannelInvariant.ExpectedStable` | internal/sshproxy/forward.go:390-406 | replies due so far do not change when the upstream answers later requests |
| `ChannelSafety.AnswerReply` | internal/sshproxy/forward.go:403-405 | hearing or giving up on the upstream's answer keeps the record of replies exact |
| `ChannelTheorems.WaitGroupsExact` | internal/sshproxy/forward.go:280-284 | the wait groups never go negative and count exactly the goroutines still running; on return all six have ended |
| `ChannelTheorems.CriticalProgress` | internal/sshproxy/forward.go:373-382 | whoever holds the reply lock when teardown asks for it can always go on |
| `ChannelTheorems.CopyProgress` | internal/sshproxy/forward.go:323-351 | each byte copy can go on until it ends, once its source has closed |
| `ChannelTheorems.NoDeadlock` | internal/sshproxy/forward.go:353-385 | once the upstream has closed, every reachable state short of return has a step of the proxy, or one the client owes it, even if the client never closes stdin and without any failure of a write to an open client |
| `ChannelTheorems.StepDescends` | internal/sshproxy/forward.go:353-385 | every such step lowers one measure over all goroutines and stages; only new client input raises it, by a fixed cost |
| `ChannelTheorems.RunBounded` | internal/sshproxy/forward.go:353-385 | the number of such steps in any run is bounded by the measure plus the cost of the client's input |
| `ChannelTheorems.TeardownEnds` | internal/sshproxy/forward.go:353-385 | a run that can go no further has returned with all six goroutines ended, stdin ended and every request of both sides dealt with |
| `RejectedOrders.WaitForAllSixDeadlocks` | internal/sshproxy/forward.go:258-260 | waiting for all six goroutines first reaches a stuck state |
| `RejectedOrders.CloseAfterByteCopiesTruncates` | internal/sshproxy/forward.go:261-262 | closing after the byte copies reaches a state with stderr cut off and no failed write |
| `RejectedOrders.CloseOnStreamEofKillsLiveSession` | internal/sshproxy/forward.go:263-267 | closing on stream EOF reaches a state where any wanted request of a live session is neither forwarded nor answered |
| `SessionStore.Store.Create` | internal/session/store.go:104-132 | one fresh row is added, or nothing if the insert fails; the caller is told the clock itself, which is less than a second ahead of the row, and the row is live at once when the idle timeout is a second or more |
| `SessionStore.Store.Get` | internal/session/store.go:144-176 | the three outcomes, each exactly when |
| `SessionStore.Store.Touch` | internal/session/store.go:192-264 | the row is renewed exactly when the version read and the row at the transaction are both a minute old and the row is alive, with last_seen_at and expires_at stated outright; nothing else changes |
| `SessionStore.Store.Delete` | internal/session/store.go:270-278 | every later Get of the id is told there is no such session, and no answer about another id changes |
| `SessionStore.Store.DeleteAllForUser` | internal/session/store.go:283-291 | every later Get of one of the user's sessions finds nothing, and no answer about another session changes |
| `SessionStore.Store.Sweep` | internal/session/store.go:296-315 | exactly the rows expired before the clock's second are gone, and their number is returned |
| `SessionHistory.TouchedOk` | internal/session/store.go:236-262 | one update keeps the formula, moves no column back, and moves last_seen_at by a minute or more within the old expiry |
| `SessionHistory.FormulaHoldsIff` | internal/session/store.go:104-264 | every row of every version of every run has expires_at = min(last_seen_at + IdleTimeout, created_at + Lifetime) if and only if the idle timeout is whole seconds and the lifetime is too, unless the idle timeout is at most the throttle |
| `SessionHistory.BreakingRun` | internal/session/store.go:249-258 | for all other durations, a run from the empty table that breaks the formula |
| `SessionHistory.SlidingPromise` | internal/session/store.go:181-186 | after a Touch of a live session it stays alive for the idle timeout, up to the cap, less the throttle and a second |
| `SessionHistory.ActiveStaysAlive` | internal/session/store.go:178-186 | a session touched often enough is found alive by every Touch until its cap |
| `SessionHistory.CommitOk` | internal/session/store.go:104-315 | every commit, with a clock captured at any time, keeps the row formula and moves every surviving row forward |
| `SessionHistory.RowsEverywhere` | internal/session/store.go:104-264 | over every run every row ever committed obeys the formula, and from any version to any later one the columns never decrease and ids are not reused |
| `SessionHistory.FastPathDiffersIff` | internal/session/store.go:195-247 | a stale pre-read changes the effect of a Touch exactly when the version read had never had the id and the row is there at the transaction, alive and not throttled |
| `SessionHistory.FastRefinesSlow` | internal/session/store.go:195-263 | over every run in which callers touch ids they were given, all versions are those of Touches that go straight to the transaction |
| `SessionHistory.GuessedIdDiffers` | internal/session/store.go:204-209 | an id touched before its row is visible is the concrete counterexample |
| `SessionHistory.WriteBudget` | internal/session/store.go:35 | any number k of updates ever applied to one session satisfies 60*k < Lifetime in seconds, however Touches interleave |
| `SessionSweep.SweepsInvisible` | internal/session/store.go:293-315 | deleting all Sweeps from a run changes no Get but "not found" into "expired" |
| `SessionSweep.SweepTransparency` | internal/session/store.go:144-164 | two runs that differ only in where Sweeps stand give every Get the same outcome up to that |
| `SessionSweep.NonDecreasingIsEnough` | internal/session/store.go:296-300 | clocks that never run backwards in commit order meet the condition used |
| `SessionSweep.SweepNoticedIff` | internal/session/store.go:296-300 | one Sweep is noticed by the Get after it exactly when the Get uses an older clock on a row the Sweep removed |
| `SessionSweep.SweepBeforeTouchNoticedIff` | internal/session/store.go:236-258 | with a late Touch in between, exactly when the Sweep removed the row and the Get comes before the expiry that the Touch would have set, or before the old one if it would not have renewed the row |
| `SessionSweep.NoResurrection` | internal/session/store.go:236-240 | an id once seen expired is never live again unless a Touch with a clock before the expiry is still to commit |
| `SessionSweep.ResurrectionIff` | internal/session/store.go:236-240 | when exactly one late Touch revives a row that was seen expired |
| `SessionSweep.DelayedTouchRevives` | internal/session/store.go:192-193 | a concrete run in which it does, and in which a Sweep in between makes a visible difference |
| `SessionSweep.HistoryIsTrace` | internal/session/store.go:192-264 | the last version of every history with stale reads is what the plain trace of its operations leaves |
| `SessionSweep.SignOutIsFinal` | internal/session/store.go:266-278 | after a Delete no later Touch, however late its clock, brings the session back |
| `SessionSweep.SignOutEverywhereIsFinal` | internal/session/store.go:280-291 | the same for every session of a user |
| `SessionSweep.SessionsAreIndependent` | internal/session/store.go:104-291 | leaving out all calls for other ids leaves a session's row as it is |
| `EnrollStores.SshServer.PublicKeyCallback` | internal/sshproxy/server.go:452-493 | who is authenticated; an unknown key is recorded for this handshake with its hash, type, bytes and time; otherwise only a known key forgets the record; no other handshake's record changes |
| `EnrollStores.SshServer.SweepPending` | internal/sshproxy/server.go:537-547 | exactly the records older than ten seconds are dropped |
| `EnrollStores.SshServer.TakePending` | internal/sshproxy/server.go:500-510 | the callback takes this handshake's record if it is fresh, and it is gone afterwards |
| `EnrollStores.TokenStore.Mint` | internal/sshenroll/token.go:62-84 | the token stands for the key for ten minutes, every other unexpired token stays, and expired ones are swept |
| `EnrollStores.TokenStore.Peek` | internal/sshenroll/token.go:88-100 | the three outcomes exactly; nothing is spent |
| `EnrollStores.TokenStore.Consume` | internal/sshenroll/token.go:105-118 | the three outcomes exactly; the entry is gone whatever the outcome |
| `EnrollStores.TokenStore.Sweep` | internal/sshenroll/token.go:129-136 | exactly the expired entries are dropped |
| `EnrollStores.KeyStore.Add` | internal/sshkey/store.go:63-99 | one row with label and creation second is added under a new id exactly when the fingerprint is free, fingerprints stay unique, and the caller is told the id and the clock |
| `EnrollStores.KeyStore.Get` | internal/sshkey/store.go:104-128 | the row with this fingerprint, or none exactly when there is none |
| `EnrollStores.KeyStore.Remove` | internal/sshkey/store.go:172-180 | exactly that fingerprint is gone |
| `EnrollStores.Handlers.HandleStart` | internal/sshenroll/handlers.go:85-106 | the page for a live token, the invalid-link page otherwise; no state changes |
| `EnrollStores.Handlers.HandleComplete` | internal/sshenroll/handlers.go:119-193 | without interference: nothing changes for a visitor not signed in, who is sent to sign in or, without a user row, shown the invalid-link page; otherwise the token is spent and success is shown exactly when the key is the visitor's afterwards and that could be looked up |
| `EnrollStores.ShortUserAgent` | internal/sshenroll/handlers.go:238-247 | a label keeps the trimmed header or its first 64 bytes, and is never empty |
| `EnrollMachine.RunInv` | internal/sshproxy/server.go:452-531 | every interleaving of handshakes, browsers and removals keeps the invariant: there is a record, a token or a key exactly when the log says so |
| `EnrollTheorems.LastUnknownIsLocal` | internal/sshproxy/server.go:483-491 | the key a handshake is prompted for depends on that handshake's own events only |
| `EnrollTheorems.KeyProvenance` | internal/sshproxy/server.go:452-531 | every key row has fingerprint = hash(key) and is the last unknown key of the one handshake that was prompted, at most ten seconds before; each prompt yields at most one token |
| `EnrollTheorems.PromptedForLastUnknown` | internal/sshproxy/server.go:495-531 | the other way round: the last unknown key of a handshake is what it is prompted for, unless the prompt or a sweep comes more than ten seconds after the offer |
| `EnrollTheorems.TokenStaysGood` | internal/sshenroll/token.go:62-118 | a token stays usable for ten minutes whatever else is minted or spent, until it is presented |
| `EnrollTheorems.EnrollmentCompletes` | internal/sshenroll/handlers.go:148-192 | from any state, offering an unknown key, being prompted, and presenting the token in time while signed in makes the key that user's |
| `EnrollTheorems.OwnKeyAgain` | internal/sshenroll/handlers.go:160-171 | enrolling again a key that is one's own succeeds and changes no key |
| `EnrollTheorems.TokensSpentOnceInTime` | internal/sshenroll/token.go:102-118 | a token is consumed at most once, after it was minted and before its expiry |
| `EnrollTheorems.SignedOutChangesNothing` | internal/sshenroll/handlers.go:126-146 | leaving all start pages and all visitors without a session or a user row out of any run gives a run that ends in the same state: they spend no token and add no key |
| `EnrollTheorems.SuccessMeansOwner` | internal/sshenroll/handlers.go:158-192 | a success page is only ever shown to the key's owner at that moment, as told by additions and removals alone |
| `EnrollTheorems.OwnerChangesOnlyByRemoval` | internal/sshkey/store.go:63-99 | between two states of a run a fingerprint keeps its row unless it was removed in between |
| `EnrollTheorems.OwnerUntilRemoved` | internal/sshkey/store.go:63-99 | by the log of additions and removals alone, an owner stays the owner until the key is removed |
| `EnrollTheorems.AuthenticatedAsOwner` | internal/sshproxy/server.go:452-481 | unless its lookup fails, an offered key is accepted as a user's exactly when it was that user's in the committed version that was read, and it still is when it is accepted if it was not removed since |
| `RateLimit.RateLimiter.Allow` | internal/httplog/ratelimit.go:55-77 | the answer and all buckets afterwards as functions of the buckets before; no two addresses share a bucket |
| `RateLimit.WindowBound` | internal/httplog/ratelimit.go:55-77 | in every run, for every address and every window, at most capacity + length * refill calls pass |
| `RateLimit.WindowRest` | internal/httplog/ratelimit.go:67-76 | the rest of a window allows no more than what is in the bucket plus what is refilled |
| `RateLimit.BoundHoldsIff` | internal/httplog/ratelimit.go:44-51 | the bound holds for all runs if and only if perMinute is at least one |
| `RateLimit.SpacedNeverDenied` | internal/httplog/ratelimit.go:67-76 | calls whose distance times the refill rate is at least one are never denied |
| `RateLimit.SpacedPerMinute` | internal/httplog/ratelimit.go:44-77 | a limiter for n per minute never denies calls that are 60 / n seconds apart |
| `RateLimit.FirstCallsPass` | internal/httplog/ratelimit.go:41-65 | a limiter for n per minute lets the first n calls of every address through |
| `RateLimitIdeal.HistoryFree` | internal/httplog/ratelimit.go:59-76 | leaving out denied calls of an address, or any calls of others, changes none of its remaining answers |
| `RateLimitIdeal.TracksStep` | internal/httplog/ratelimit.go:67-76 | the lazily refilled level is always the largest amount for which every window has room |
| `RateLimitIdeal.AgreesWithIdeal` | internal/httplog/ratelimit.go:55-77 | for every run the answers are those of an ideal limiter that looks at windows of granted calls only |
| `EntryTable.FoldSucceedsIff` | internal/config/config.go:271-343 | a table parses exactly when every entry does and no two share a key: all or nothing |
| `EntryTable.FoldKey` | internal/config/config.go:271-343 | the table holds every entry's keys unchanged and no others |
| `EntryTable.AcceptsIff` | internal/config/config.go:271-343 | for either grammar a text is accepted exactly when it has an entry, every entry is well formed and no key is named twice |
| `EntryTable.PrintedReadsBack` | internal/config/config.go:271-343 | for either grammar, if entries read back so do whole tables, printed in any order |
| `EntryTable.OrderIrrelevant` | internal/config/config.go:271-343 | writing the entries in another order changes neither success nor result, for either grammar |
| `EntryTable.ParseRoleList` | internal/config/config.go:322-333 | the role list of an entry, or an error for any blank or ill-formed name |
| `EntryTable.RoleListIff` | internal/config/config.go:322-333 | a list gives exactly its entries in order without outer spaces, if every one of them is a role name |
| `EntryTable.RoleListUndoesJoin` | internal/config/config.go:322-333 | a printed role list reads back |
| `SshUpstreams.ParseSSHUpstreams` | internal/config/config.go:430-531 | the nested loops compute the fold of the entries, or an error |
| `SshUpstreams.ReadEntry` | internal/config/config.go:433-506 | the checks on one entry accept exactly what its specification accepts |
| `SshUpstreams.AddPorts` | internal/config/config.go:508-525 | all ports of a range are added, or none when one is taken; building a port's target never fails |
| `SshUpstreams.PortSpecFacts` | internal/config/config.go:382-421 | an accepted port specification is a range of valid ports within the width limit, and a single port unless '-' was written |
| `SshUpstreams.PortSpecReadsBack` | internal/config/config.go:382-421 | printed bounds are read back exactly when they are in order and not too wide |
| `SshUpstreams.EntryRows` | internal/config/config.go:508-525 | an accepted entry has one well-formed row for each port of its interval and no other |
| `SshUpstreams.EntryFields` | internal/config/config.go:433-465 | an entry is read field by field whatever spaces stand around the fields |
| `SshUpstreams.AcceptedIff` | internal/config/config.go:430-531 | a text is accepted exactly when it has an entry, all entries are well formed and no port is in two of them |
| `SshUpstreams.PortsArePartitioned` | internal/config/config.go:508-525 | the ports of the table are the disjoint union of the entries' intervals, each row carries its own port, and the size is the sum of the widths |
| `SshUpstreams.RangeIsSugar` | internal/config/config.go:470-480 | among any other entries, a range with a bare host means what one entry per port with target host:port and the same roles means, whether accepted or not |
| `SshUpstreams.SugarIff` | internal/config/config.go:413-419 | standing alone with a valid role list the two agree if and only if a host is named and the range is not too wide |
| `SshUpstreams.RenderReadsBack` | internal/config/config.go:423-531 | every well-formed table, printed with its rows in any order, reads back as it was |
| `SshUpstreams.AcceptedIsWellFormed` | internal/config/config.go:430-531 | only well-formed tables are ever returned, so those are exactly the accepted ones |
| `HttpUpstreams.ParseUpstreams` | internal/config/config.go:271-343 | the loop computes the fold of the entries, or an error |
| `HttpUpstreams.ReadEntry` | internal/config/config.go:274-337 | the checks on one entry accept exactly what its specification accepts |
| `HttpUpstreams.AcceptedIff` | internal/config/config.go:282-318 | accepted exactly when it has an entry, all are well formed and no two hosts are equal but for the case of their letters |
| `HttpUpstreams.SpacesIgnored` | internal/config/config.go:275-302 | spaces around host, url and role list make no difference |
| `HttpUpstreams.SchemeCaseIgnored` | internal/config/config.go:304-310 | the scheme may be written in any case |
| `HttpUpstreams.RenderReadsBack` | internal/config/config.go:271-343 | every well-formed table, printed with its hosts in any order, reads back as it was |
| `HttpUpstreams.AcceptedIsWellFormed` | internal/config/config.go:271-343 | only well-formed tables are ever returned |
| `HttpUpstreams.LegacyFormRefused` | internal/config/config.go:345-370 | a value in the old comma-separated form never yields a table |
| `HttpUpstreams.GatedIffBar` | internal/config/config.go:317-334 | an accepted entry is ungated exactly when no bar was written: a role list that was begun never admits everybody |
| `HttpUpstreams.Permits` | internal/config/config.go:104-114 | true exactly when ungated or when one role is shared |
| `HttpUpstreams.RolesIntersect` | internal/sshproxy/server.go:552-566 | true exactly when one role is shared; an empty list admits nobody |
| `Roles.ParseRolesColumn` | internal/user/store.go:306-323 | the loop returns the trimmed, non-empty entries, or an error exactly when one is ill formed |
| `Roles.ParseRolesArg` | cmd/forge-proxy/admin.go:252-267 | the command-line splitter returns the same entries, unchecked |
| `Roles.ParseUndoesJoin` | internal/user/store.go:276-323 | parsing inverts the comma join on every list of valid names |
| `Roles.EntriesAre` | internal/user/store.go:310-321 | the names of a list are its entries without outer spaces, except the blank ones |
| `Roles.SpacedListParses` | internal/user/store.go:312-316 | a list may be written with a space after each comma |
| `Roles.AcceptedIsFixedPoint` | internal/user/store.go:300-323 | re-joining and re-parsing any accepted column changes nothing |
| `Roles.CliAgreesWithColumn` | cmd/forge-proxy/admin.go:252-267 | the command line followed by SetRoles accepts what the column parser accepts and stores the same list |
| `Roles.UserStore.UpsertFromOIDC` | internal/user/store.go:105-193 | a sign-in stores the five profile fields of the claims and the clock; a new user has no roles, a known one keeps id, roles and creation time; it fails exactly when the stored column does not parse, and then changes nothing; no other row changes |
| `Roles.UserStore.SetRoles` | internal/user/store.go:276-298 | the three outcomes exactly, and that only this user's column changes |
| `Roles.RolesSurviveSignIns` | internal/user/store.go:105-193 | over every run of sign-ins and role changes a user's roles are those last set, and an unreadable column stays so until then |
| `Roles.ProfileIsLastSignIn` | internal/user/store.go:161-168 | over every run a user's profile is that of the last sign-in that succeeded, and the creation time never changes |
| `Roles.ColumnsStayReadable` | internal/user/store.go:105-323 | from a table of readable columns no run leads to one that cannot be read, so no sign-in fails on its roles |
| `DisplayName.PercentEncodeUTF8` | internal/proxy/headers.go:222-241 | the loop computes the percent encoding of the bytes |
| `DisplayName.EncodeByteIs` | internal/proxy/headers.go:223-238 | unreserved bytes stand for themselves, all others are a percent sign and two upper-case digits |
| `DisplayName.EncodeDisplayName` | internal/proxy/headers.go:208-215 | the loop encodes exactly the names that are not ASCII |
| `DisplayName.DecodeInvertsEncode` | internal/proxy/headers.go:222-241 | percent-decoding inverts the encoder on every byte string |
| `DisplayName.ValueIsAscii` | internal/proxy/headers.go:196-202 | the header value is ASCII for every name |
| `DisplayName.NameComesBackIff` | internal/proxy/headers.go:204-215 | the upstream recovers the name if and only if it is not an ASCII name beginning with the prefix |
| `DisplayName.ClashIff` | internal/proxy/headers.go:208-215 | two names share a value exactly when one is the other's encoding written out |
| `Headers.Request.StripForgeHeaders` | internal/proxy/headers.go:78-156 | header and trailer afterwards as functions of those before |
| `Headers.Request.InjectForgeHeaders` | internal/proxy/headers.go:170-194 | the nine pairs are set in order on the header before |
| `Headers.DeleteForgeKeys` | internal/proxy/headers.go:79-84 | the prefix loop deletes the same entries in whatever order it visits the map |
| `Headers.Filter` | internal/proxy/headers.go:91-105 | one list value is filtered in order |
| `Headers.Clean` | internal/proxy/headers.go:89-112 | all values of a list header are filtered and empty ones dropped |
| `Headers.ForgeIff` | internal/proxy/headers.go:51-57 | a token is an X-Forge name exactly when it begins with that prefix in any case |
| `Headers.ForgeSurvivesIff` | internal/proxy/headers.go:79-84 | an X-Forge key survives the prefix strip exactly when it was stored under a key that is not canonical |
| `Headers.CleaningFilters` | internal/proxy/headers.go:86-155 | what an upstream reads from Trailer and Cookie is an order-preserving filter of what was sent, and a second pass changes nothing |
| `Headers.NothingForbiddenLeft` | internal/proxy/headers.go:86-155 | afterwards a trailer name is announced exactly when it was and its canonical form does not begin with X-Forge-, and a cookie pair is there exactly when it was sent and is neither forge_session alone nor forge_session with a value |
| `Headers.TrailersLeft` | internal/proxy/headers.go:86-112 | the same for the trailer announcement of a whole request |
| `Headers.CookiesLeft` | internal/proxy/headers.go:124-155 | the same for the cookies of a whole request |
| `Headers.ItemsAre` | internal/proxy/headers.go:93-97 | which entries a header value has |
| `Headers.SessionCookieSurvivesIff` | internal/proxy/headers.go:124-155 | a pair that a reader who drops spaces around the name takes for the session cookie survives if and only if it was sent with a space before the equals sign |
| `Headers.SpacedCookieSurvives` | internal/proxy/headers.go:139-145 | such a pair, with any value |
| `Headers.ForgeHeadersExact` | internal/proxy/headers.go:78-194 | for canonical keys the X-Forge headers delivered are exactly the nine, single-valued, with the values for this secret and user |
| `Headers.ForgeHeadersIndependent` | internal/proxy/headers.go:78-194 | for any two clients the delivered X-Forge headers are the same |
| `UpstreamView.UpstreamReadsUser` | internal/proxy/headers.go:170-194 | whatever the client sent, an upstream reads back the user's id, profile and roles, and the name except for an ASCII name with the literal prefix |
| `Headers.OtherHeadersKept` | internal/proxy/headers.go:78-156 | every other header is unchanged, and the two lists are filtered in order |
| `Headers.StripTwice` | internal/proxy/headers.go:78-156 | the strip is idempotent on every header map |

## Left out

- `proxyChannel` is a transition system over values, not a class with threads: Dafny has no goroutines, and every interleaving is what the properties are about.
- Global requests, `handleChannel`'s dialing, `Handle`, the accept loops, `Shutdown` and the registry of connections.
- A request to an upstream that is open counts as sent; a request to the client may fail at any time, and is then recorded as missed.
- Lock fairness and real time: progress means that a step is enabled, not that the scheduler takes it.
- `EnrollStores.Handlers.HandleComplete`: says what it does when nothing interleaves; the interleaved steps are those of `EnrollMachine`.
- `EnrollStores.KeyStore.Add`: does not tell the kinds of database error apart, since its callers do not; last_used_at is left out.
- `SessionStore.Store.Create`: does not tell a taken id from other database errors, since the source does not; random ids are a parameter, assumed fresh in runs.
- `Roles.UserStore.UpsertFromOIDC`: database failures are not modelled; the transaction is one step, undone as a whole when a column does not parse.
- SQLite, migrations, connection pools and the writer lock: a transaction is one atomic step on a map, a reader sees any committed version.
- Stamping a key's last use, listing keys by user, and the plain user lookups: single queries with easy properties.
- SSH, TLS and OIDC cryptography: the fingerprint is an arbitrary function of the key bytes; tokens are random and assumed never to repeat.
- `RateLimit.RateLimiter.Allow`: uses `real` where the source uses float64, so rounding is not modelled; eviction does not exist in the source either.
- 64-bit integers, `time.Duration` saturation, and integer parsing errors for numbers beyond 64 bits (all are outside the valid ports).
- `SshUpstreams.ReadEntry`: targets are plain host names with an optional numeric port; IPv6 brackets, user info, escapes and paths, which `url.Parse` may accept, are errors here.
- `HttpUpstreams.ReadEntry`: URLs are http or https with such an authority and printable ASCII other than '%' after it; other forms that `url.Parse` accepts are errors here.
- Spaces and letter case are ASCII; Unicode spaces and case mapping are not modelled.
- Texts of error messages, logging, HTML pages, cookies' attributes, CSP, request ids and static assets.
- The configuration loader apart from the two tables, and the command line apart from its role splitter.
- Parsing of URLs for the SSH tables by scheme: the tag "ssh://" that is put in front of a target carries no information and is not modelled.
