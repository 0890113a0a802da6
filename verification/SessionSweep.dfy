/** What sweeping can and cannot be noticed by, and when an expired session stays dead.
    A trace lists the operations in commit order, each with the clock it captured; by
    FastRefinesSlow a Touch is its transaction. */
module SessionSweep {
  import opened Basics
  import opened SessionStore
  import SessionHistory

  datatype Call =
    | Create(id: Id, now: int, userId: int, userAgent: string, ip: string)
    | Touch(id: Id, now: int)
    | Get(id: Id, now: int)
    | Delete(id: Id)
    | DeleteAllForUser(userId: int)
    | Sweep(now: int)

  function Effect(o: Options, t: Table, c: Call): Table {
    match c
    case Create(id, now, userId, userAgent, ip) => t[id := FreshRow(o, now, userId, userAgent, ip)]
    case Touch(id, now) => TouchTx(o, t, now, id)
    case Get(_, _) => t
    case Delete(id) => t - {id}
    case DeleteAllForUser(userId) => WithoutUser(t, userId)
    case Sweep(now) => Swept(t, now)
  }

  function Final(o: Options, t: Table, calls: seq<Call>): Table
    decreases |calls|
  {
    if calls == [] then t else Final(o, Effect(o, t, calls[0]), calls[1..])
  }

  /** What the Get calls of a trace return, in order. */
  function Outcomes(o: Options, t: Table, calls: seq<Call>): seq<Lookup>
    decreases |calls|
  {
    if calls == [] then []
    else
      (if calls[0].Get? then [Look(t, calls[0].now, calls[0].id)] else [])
      + Outcomes(o, Effect(o, t, calls[0]), calls[1..])
  }

  function WithoutSweeps(calls: seq<Call>): seq<Call> {
    if calls == [] then []
    else (if calls[0].Sweep? then [] else [calls[0]]) + WithoutSweeps(calls[1..])
  }

  /** No Touch or Get uses a clock older than that of a Sweep that committed before it. Clocks that
      never run backwards in commit order are a special case. */
  predicate SweepsNotAhead(calls: seq<Call>) {
    forall i, j :: 0 <= i < j < |calls| && calls[i].Sweep? && (calls[j].Touch? || calls[j].Get?) ==>
      calls[i].now <= calls[j].now
  }

  predicate ClocksNonDecreasing(calls: seq<Call>) {
    forall i, j :: 0 <= i < j < |calls| && HasClock(calls[i]) && HasClock(calls[j]) ==> calls[i].now <= calls[j].now
  }

  predicate HasClock(c: Call) { !c.Delete? && !c.DeleteAllForUser? }

  lemma NonDecreasingIsEnough(calls: seq<Call>)
    requires ClocksNonDecreasing(calls)
    ensures SweepsNotAhead(calls)
  {
  }

  /** Identifiers are random: a created one is new to the table and is created once. */
  predicate FreshIds(t: Table, calls: seq<Call>) {
    && (forall i :: 0 <= i < |calls| && calls[i].Create? ==> calls[i].id !in t)
    && (forall i, j :: 0 <= i < j < |calls| && calls[i].Create? && calls[j].Create? ==> calls[i].id != calls[j].id)
  }

  /** The same answer, or "expired" for a row that the other table has swept away. */
  predicate SameUpToSweep(unswept: Lookup, swept: Lookup) {
    unswept == swept || (unswept.Expired? && swept.NotFound?)
  }

  /** The same answer, or the two ways of being told to sign in again. */
  predicate SameForCaller(a: Lookup, b: Lookup) { a == b || (!a.Live? && !b.Live?) }

  /** `swept` lacks only rows of `full` that are expired for every Touch and Get still to come. */
  predicate OnlyDeadMissing(full: Table, swept: Table, calls: seq<Call>) {
    && (forall id :: id in swept ==> id in full && full[id] == swept[id])
    && (forall id, j :: id in full && id !in swept && 0 <= j < |calls| && (calls[j].Touch? || calls[j].Get?) ==>
         !Alive(full[id], calls[j].now))
  }

  lemma TailNotAhead(calls: seq<Call>)
    requires calls != [] && SweepsNotAhead(calls)
    ensures SweepsNotAhead(calls[1..])
  {
    assert forall i :: 0 <= i < |calls[1..]| ==> calls[1..][i] == calls[i + 1];
  }

  lemma EffectFresh(o: Options, t: Table, calls: seq<Call>)
    requires calls != [] && FreshIds(t, calls)
    ensures FreshIds(Effect(o, t, calls[0]), calls[1..])
  {
    assert forall i :: 0 <= i < |calls[1..]| ==> calls[1..][i] == calls[i + 1];
  }

  lemma EffectKeepsDead(o: Options, full: Table, swept: Table, calls: seq<Call>)
    requires calls != [] && !calls[0].Sweep? && FreshIds(full, calls) && OnlyDeadMissing(full, swept, calls)
    ensures OnlyDeadMissing(Effect(o, full, calls[0]), Effect(o, swept, calls[0]), calls[1..])
  {
    assert forall i :: 0 <= i < |calls[1..]| ==> calls[1..][i] == calls[i + 1];
    if calls[0].Touch? && calls[0].id in full && calls[0].id !in swept {
      assert !Alive(full[calls[0].id], calls[0].now);
    }
  }

  lemma SweepKeepsDead(full: Table, swept: Table, calls: seq<Call>)
    requires calls != [] && calls[0].Sweep? && SweepsNotAhead(calls) && OnlyDeadMissing(full, swept, calls)
    ensures OnlyDeadMissing(full, Swept(swept, calls[0].now), calls[1..])
  {
    assert forall i :: 0 <= i < |calls[1..]| ==> calls[1..][i] == calls[i + 1];
  }

  ghost predicate AllSameUpToSweep(unswept: seq<Lookup>, swept: seq<Lookup>) {
    |unswept| == |swept| && forall k :: 0 <= k < |swept| ==> SameUpToSweep(unswept[k], swept[k])
  }

  lemma ConsSame(unswept: seq<Lookup>, swept: seq<Lookup>, a: seq<Lookup>, b: seq<Lookup>)
    requires AllSameUpToSweep(unswept, swept) && AllSameUpToSweep(a, b)
    ensures AllSameUpToSweep(a + unswept, b + swept)
  {
  }

  /** Deleting every Sweep from a trace changes no answer but "not found" into "expired". */
  lemma {:induction false} SweepsInvisible(o: Options, full: Table, swept: Table, calls: seq<Call>)
    requires FreshIds(full, calls) && SweepsNotAhead(calls) && OnlyDeadMissing(full, swept, calls)
    ensures AllSameUpToSweep(Outcomes(o, full, WithoutSweeps(calls)), Outcomes(o, swept, calls))
    decreases |calls|
  {
    if calls != [] {
      hide FreshIds, SweepsNotAhead, OnlyDeadMissing, AllSameUpToSweep, SameUpToSweep, Look;
      var c, rest := calls[0], calls[1..];
      TailNotAhead(calls);
      if c.Sweep? {
        SweepKeepsDead(full, swept, calls);
        SkipFresh(full, calls);
        SweepsInvisible(o, full, Swept(swept, c.now), rest);
        assert WithoutSweeps(calls) == WithoutSweeps(rest);
        assert Outcomes(o, swept, calls) == Outcomes(o, Swept(swept, c.now), rest);
      } else {
        EffectFresh(o, full, calls);
        EffectKeepsDead(o, full, swept, calls);
        hide Effect;
        SweepsInvisible(o, Effect(o, full, c), Effect(o, swept, c), rest);
        assert WithoutSweeps(calls)[1..] == WithoutSweeps(rest);
        FirstLook(o, full, swept, calls);
        ConsSame(Outcomes(o, Effect(o, full, c), WithoutSweeps(rest)), Outcomes(o, Effect(o, swept, c), rest),
          if c.Get? then [Look(full, c.now, c.id)] else [], if c.Get? then [Look(swept, c.now, c.id)] else []);
      }
    }
  }

  lemma FirstLook(o: Options, full: Table, swept: Table, calls: seq<Call>)
    requires calls != [] && OnlyDeadMissing(full, swept, calls)
    ensures var c := calls[0];
      AllSameUpToSweep(
        if c.Get? then [Look(full, c.now, c.id)] else [],
        if c.Get? then [Look(swept, c.now, c.id)] else [])
  {
    var c := calls[0];
    if c.Get? && c.id in full && c.id !in swept {
      assert !Alive(full[c.id], c.now);
    }
  }

  lemma SkipFresh(t: Table, calls: seq<Call>)
    requires calls != [] && FreshIds(t, calls)
    ensures FreshIds(t, calls[1..])
  {
    assert forall i :: 0 <= i < |calls[1..]| ==> calls[1..][i] == calls[i + 1];
  }

  /** Sweep steps may be put in or taken out anywhere: two traces that differ in nothing else give
      every caller the same answer, except that one may say "expired" and the other "not found". */
  lemma SweepTransparency(o: Options, t: Table, one: seq<Call>, two: seq<Call>)
    requires WithoutSweeps(one) == WithoutSweeps(two)
    requires FreshIds(t, one) && FreshIds(t, two) && SweepsNotAhead(one) && SweepsNotAhead(two)
    ensures var a, b := Outcomes(o, t, one), Outcomes(o, t, two);
      |a| == |b| && forall k :: 0 <= k < |a| ==> SameForCaller(a[k], b[k])
  {
    SweepsInvisible(o, t, t, one);
    SweepsInvisible(o, t, t, two);
    var c := Outcomes(o, t, WithoutSweeps(one));
    var a, b := Outcomes(o, t, one), Outcomes(o, t, two);
    forall k | 0 <= k < |a|
      ensures SameForCaller(a[k], b[k])
    {
      assert SameUpToSweep(c[k], a[k]) && SameUpToSweep(c[k], b[k]);
    }
  }

  /** One Sweep is noticed by a Get that follows it directly exactly when it removed the row and the Get
      uses an older clock for which the row was still alive. */
  lemma SweepNoticedIff(t: Table, id: Id, sweep: int, now: int)
    ensures !SameForCaller(Look(t, now, id), Look(Swept(t, sweep), now, id))
       <==> id in t && t[id].expiresAt < Unix(sweep) && Alive(t[id], now)
  {
  }

  /** With a late Touch in between, exactly when it removed the row and the Get's clock is before the expiry
      that the Touch would have set, or the old one if the Touch came too late or too early to renew it. */
  lemma SweepBeforeTouchNoticedIff(o: Options, t: Table, id: Id, sweep: int, touch: int, now: int)
    ensures
      !SameForCaller(
        Look(Final(o, t, [Touch(id, touch)]), now, id),
        Look(Final(o, t, [Sweep(sweep), Touch(id, touch)]), now, id))
      <==>
        && id in t && t[id].expiresAt < Unix(sweep)
        && if Alive(t[id], touch) && !Throttled(t[id], touch)
           then now < Unix(Min(touch + o.idle, t[id].createdAt * SECOND + o.lifetime)) * SECOND
           else now < t[id].expiresAt * SECOND
  {
    assert [Sweep(sweep), Touch(id, touch)][1..] == [Touch(id, touch)];
    assert [Touch(id, touch)][1..] == [];
    assert Final(o, t, [Touch(id, touch)]) == TouchTx(o, t, touch, id);
    assert Final(o, Swept(t, sweep), [Touch(id, touch)]) == TouchTx(o, Swept(t, sweep), touch, id);
  }

  // Traces and histories

  /** The call that an operation of a history is, once every Touch is its transaction. */
  function CallOf(op: SessionHistory.Op): Call {
    match op
    case Create(id, now, userId, userAgent, ip) => Create(id, now, userId, userAgent, ip)
    case Touch(id, now, _) => Touch(id, now)
    case Delete(id) => Delete(id)
    case DeleteAllForUser(userId) => DeleteAllForUser(userId)
    case Sweep(now) => Sweep(now)
  }

  function CallsOf(ops: seq<SessionHistory.Op>): seq<Call> {
    if ops == [] then [] else [CallOf(ops[0])] + CallsOf(ops[1..])
  }

  /** What is proved of traces holds of the code: the last version of every history in which callers touch
      only ids that they were given is what the trace of its operations leaves. */
  lemma {:induction false} HistoryIsTrace(o: Options, h: SessionHistory.History, ops: seq<SessionHistory.Op>)
    requires Loadable(o) && h != [] && SessionHistory.HistoryOk(o, h)
    requires SessionHistory.Histories(o, h, ops) && SessionHistory.Known(o, h, ops)
    ensures SessionHistory.Current(SessionHistory.Exec(o, h, ops))
         == Final(o, SessionHistory.Current(h), CallsOf(ops))
    decreases |ops|
  {
    if ops != [] {
      var op, rest := ops[0], ops[1..];
      if op.Touch? { SessionHistory.FastPathDiffersIff(o, h, op.seen, op.now, op.id); }
      SessionHistory.CommitOk(o, h, op);
      var next := SessionHistory.Commit(o, h, op);
      assert next == Effect(o, SessionHistory.Current(h), CallOf(op));
      assert CallsOf(ops)[1..] == CallsOf(rest);
      hide SessionHistory.Commit, SessionHistory.HistoryOk, Effect, CallOf;
      HistoryIsTrace(o, h + [next], rest);
    }
  }

  // Signing out is final

  predicate CreatesId(c: Call, id: Id) { c.Create? && c.id == id }

  lemma {:induction false} StaysAway(o: Options, t: Table, id: Id, calls: seq<Call>)
    requires id !in t && forall i :: 0 <= i < |calls| ==> !CreatesId(calls[i], id)
    ensures id !in Final(o, t, calls)
    decreases |calls|
  {
    if calls != [] {
      assert forall i :: 0 <= i < |calls[1..]| ==> calls[1..][i] == calls[i + 1];
      assert id !in Effect(o, t, calls[0]);
      StaysAway(o, Effect(o, t, calls[0]), id, calls[1..]);
    }
  }

  lemma {:induction false} FinalConcat(o: Options, t: Table, a: seq<Call>, b: seq<Call>)
    ensures Final(o, t, a + b) == Final(o, Final(o, t, a), b)
    decreases |a|
  {
    if a == [] {
      assert a + b == b;
    } else {
      assert (a + b)[1..] == a[1..] + b;
      FinalConcat(o, Effect(o, t, a[0]), a[1..], b);
    }
  }

  /** Once a session is deleted no later Touch, however late its clock was captured, brings it back: every
      later Get is told that there is none. */
  lemma SignOutIsFinal(o: Options, t: Table, before: seq<Call>, id: Id, after: seq<Call>, now: int)
    requires forall i :: 0 <= i < |after| ==> !CreatesId(after[i], id)
    ensures Look(Final(o, t, before + [Delete(id)] + after), now, id) == NotFound
  {
    FinalConcat(o, t, before + [Delete(id)], after);
    FinalConcat(o, t, before, [Delete(id)]);
    var gone := Final(o, t, before + [Delete(id)]);
    assert gone == Final(o, Effect(o, Final(o, t, before), Delete(id)), []);
    StaysAway(o, gone, id, after);
  }

  /** The same for all sessions of a user: those that are signed in later are the only ones it then has. */
  lemma SignOutEverywhereIsFinal(o: Options, t: Table, before: seq<Call>, userId: int, after: seq<Call>, id: Id)
    requires var rows := Final(o, t, before); id in rows ==> rows[id].userId == userId
    requires forall i :: 0 <= i < |after| ==> !CreatesId(after[i], id)
    ensures id !in Final(o, t, before + [DeleteAllForUser(userId)] + after)
  {
    var all := DeleteAllForUser(userId);
    FinalConcat(o, t, before + [all], after);
    FinalConcat(o, t, before, [all]);
    var gone := Final(o, t, before + [all]);
    assert gone == Final(o, Effect(o, Final(o, t, before), all), []);
    StaysAway(o, gone, id, after);
  }

  /** Calls for one id, and those that can be for any. */
  predicate About(c: Call, id: Id) {
    match c
    case Create(other, _, _, _, _) => other == id
    case Touch(other, _) => other == id
    case Get(other, _) => other == id
    case Delete(other) => other == id
    case _ => true
  }

  function Only(calls: seq<Call>, id: Id): seq<Call> {
    if calls == [] then [] else (if About(calls[0], id) then [calls[0]] else []) + Only(calls[1..], id)
  }

  ghost predicate SameRow(a: Table, b: Table, id: Id) {
    (id in a <==> id in b) && (id in a ==> a[id] == b[id])
  }

  /** Nothing that is done to other sessions touches this one: leaving out all calls for other ids leaves
      its row as it is. */
  lemma {:induction false} SessionsAreIndependent(o: Options, a: Table, b: Table, calls: seq<Call>, id: Id)
    requires SameRow(a, b, id)
    ensures SameRow(Final(o, a, calls), Final(o, b, Only(calls, id)), id)
    decreases |calls|
  {
    if calls != [] {
      var c := calls[0];
      if About(c, id) {
        assert SameRow(Effect(o, a, c), Effect(o, b, c), id);
        assert Only(calls, id)[1..] == Only(calls[1..], id);
        hide Effect, SameRow, About;
        SessionsAreIndependent(o, Effect(o, a, c), Effect(o, b, c), calls[1..], id);
      } else {
        assert SameRow(Effect(o, a, c), b, id);
        assert Only(calls, id) == Only(calls[1..], id);
        hide Effect, SameRow, About;
        SessionsAreIndependent(o, Effect(o, a, c), b, calls[1..], id);
      }
    }
  }

  // No resurrection

  /** Every Touch of id still to come is too late for the row as it stands. */
  predicate NoTouchInTime(t: Table, id: Id, calls: seq<Call>) {
    id in t ==> forall j :: 0 <= j < |calls| && calls[j].Touch? && calls[j].id == id ==> !Alive(t[id], calls[j].now)
  }

  /** A session that a Get has seen expired is never live again for a clock that is no older, unless a
      Touch that captured its clock while the session was alive commits after that Get. */
  lemma {:induction false} NoResurrection(o: Options, t: Table, id: Id, calls: seq<Call>, observed: int)
    requires Look(t, observed, id).Expired? || Look(t, observed, id).NotFound?
    requires NoTouchInTime(t, id, calls)
    requires forall j :: 0 <= j < |calls| && calls[j].Create? ==> calls[j].id != id
    ensures forall later :: later >= observed ==> !Look(Final(o, t, calls), later, id).Live?
    decreases |calls|
  {
    if calls != [] {
      var c, rest, t' := calls[0], calls[1..], Effect(o, t, calls[0]);
      assert forall i :: 0 <= i < |rest| ==> rest[i] == calls[i + 1];
      assert id in t' ==> id in t && t'[id] == t[id];
      NoResurrection(o, t', id, rest, observed);
    }
  }

  /** The one row that a late Touch revives: its clock is older than the expiry that was observed. */
  lemma ResurrectionIff(o: Options, r: Row, now: int, observed: int)
    requires !Alive(r, observed)
    ensures Alive(Touched(o, r, now), observed)
       <==> Alive(r, now) && !Throttled(r, now)
            && observed < Unix(Min(now + o.idle, r.createdAt * SECOND + o.lifetime)) * SECOND
    ensures Alive(Touched(o, r, now), observed) ==> now < observed
  {
  }

  /** A delayed Touch: the session is seen expired at second 130, then a Touch that captured second
      100 commits, and at second 131 it is live. A Sweep in between would have prevented it. */
  lemma DelayedTouchRevives()
    ensures var o := Options(1000 * SECOND, 120 * SECOND);
      var t := map["id" := FreshRow(o, 0, 7, "", "")];
      var calls := [Get("id", 130 * SECOND), Touch("id", 100 * SECOND), Get("id", 131 * SECOND)];
      var swept := [Get("id", 130 * SECOND), Sweep(130 * SECOND), Touch("id", 100 * SECOND), Get("id", 131 * SECOND)];
      && Outcomes(o, t, calls) == [Expired, Live(Row(7, 0, 100, 220, "", ""))]
      && Outcomes(o, t, swept) == [Expired, NotFound]
  {
    var o := Options(1000 * SECOND, 120 * SECOND);
    var t := map["id" := FreshRow(o, 0, 7, "", "")];
    var get, touch, again := Get("id", 130 * SECOND), Touch("id", 100 * SECOND), Get("id", 131 * SECOND);
    var sweep := Sweep(130 * SECOND);
    var touched := TouchTx(o, t, 100 * SECOND, "id");
    assert [get, touch, again][1..] == [touch, again];
    assert [touch, again][1..] == [again];
    assert [get, sweep, touch, again][1..] == [sweep, touch, again];
    assert [sweep, touch, again][1..] == [touch, again];
    assert Outcomes(o, touched, [again]) == [Live(Row(7, 0, 100, 220, "", ""))];
    assert Swept(t, 130 * SECOND) == map[];
    assert TouchTx(o, map[], 100 * SECOND, "id") == map[];
    assert Outcomes(o, map[], [again]) == [NotFound];
    assert Outcomes(o, map[], [touch, again]) == [NotFound];
    assert Outcomes(o, t, [sweep, touch, again]) == [NotFound];
  }
}
