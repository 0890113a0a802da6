/** Every history that interleaved session operations can commit. A history is the list of all
    committed versions of the table; a Touch reads any one of them before its own transaction. */
module SessionHistory {
  import opened Basics
  import opened SessionStore

  type History = seq<Table>

  datatype Op =
    | Create(id: Id, now: int, userId: int, userAgent: string, ip: string)
    | Touch(id: Id, now: int, seen: nat)
    | Delete(id: Id)
    | DeleteAllForUser(userId: int)
    | Sweep(now: int)

  function Current(h: History): Table
    requires h != []
  {
    h[|h| - 1]
  }

  /** Some version up to and including number v holds a row for id. */
  ghost predicate Minted(h: History, v: nat, id: Id)
  {
    exists u: nat :: u <= v && u < |h| && id in h[u]
  }

  /** Random identifiers are never handed out twice, and a reader sees a version that is committed. */
  ghost predicate Possible(h: History, op: Op)
    requires h != []
  {
    match op
    case Create(id, _, _, _, _) => !Minted(h, |h| - 1, id)
    case Touch(_, _, seen) => seen < |h|
    case _ => true
  }

  function Commit(o: Options, h: History, op: Op): Table
    requires h != [] && (op.Touch? ==> op.seen < |h|)
  {
    var rows := Current(h);
    match op
    case Create(id, now, userId, userAgent, ip) => rows[id := FreshRow(o, now, userId, userAgent, ip)]
    case Touch(id, now, seen) => TouchFast(o, rows, h[seen], now, id)
    case Delete(id) => rows - {id}
    case DeleteAllForUser(userId) => WithoutUser(rows, userId)
    case Sweep(now) => Swept(rows, now)
  }

  ghost predicate Histories(o: Options, h: History, ops: seq<Op>)
    requires h != []
    decreases |ops|
  {
    ops == [] || (Possible(h, ops[0]) && Histories(o, h + [Commit(o, h, ops[0])], ops[1..]))
  }

  ghost function Exec(o: Options, h: History, ops: seq<Op>): (r: History)
    requires h != [] && Histories(o, h, ops)
    ensures r != []
    decreases |ops|
  {
    if ops == [] then h else Exec(o, h + [Commit(o, h, ops[0])], ops[1..])
  }

  const EMPTY_HISTORY: History := [map[]]

  // What a row looks like, and what happens to it between two versions

  /** Durations for which the columns hold the documented formula exactly: whole seconds, except
      that the cap may be fractional when no session lives long enough to be renewed. */
  predicate Exact(o: Options) {
    o.idle % SECOND == 0 && (o.lifetime % SECOND == 0 || o.idle <= TOUCH_THROTTLE)
  }

  /** expires_at = min(last_seen_at + IdleTimeout, created_at + Lifetime). */
  predicate RowFormula(o: Options, r: Row) {
    r.expiresAt * SECOND == Min(r.lastSeenAt * SECOND + o.idle, r.createdAt * SECOND + o.lifetime)
  }

  /** What holds of every row even when the durations are not whole seconds. */
  predicate RowBounds(o: Options, r: Row) {
    && r.createdAt <= r.lastSeenAt
    && r.expiresAt * SECOND < r.createdAt * SECOND + o.lifetime + SECOND
  }

  predicate SameSession(o: Options, before: Row, after: Row) {
    && before.userId == after.userId && before.createdAt == after.createdAt
    && before.userAgent == after.userAgent && before.ip == after.ip
    && before.lastSeenAt <= after.lastSeenAt
    && (Exact(o) ==> before.expiresAt <= after.expiresAt)
  }

  ghost predicate RowsOk(o: Options, t: Table) {
    forall id :: id in t ==> RowBounds(o, t[id]) && (Exact(o) ==> RowFormula(o, t[id]))
  }

  /** The later of two versions: a row that is in both is the same session moved forward. */
  ghost predicate MovesForward(o: Options, before: Table, after: Table) {
    forall id :: id in before && id in after ==> SameSession(o, before[id], after[id])
  }

  ghost predicate HistoryOk(o: Options, h: History) {
    && (forall i :: 0 <= i < |h| ==> RowsOk(o, h[i]))
    && (forall i, j :: 0 <= i <= j < |h| ==> MovesForward(o, h[i], h[j]))
    && (forall i, j, k, id :: 0 <= i <= j <= k < |h| && id in h[i] && id in h[k] ==> id in h[j])
  }

  // One row

  lemma FreshRowOk(o: Options, now: int, userId: int, userAgent: string, ip: string)
    requires Loadable(o)
    ensures RowBounds(o, FreshRow(o, now, userId, userAgent, ip))
    ensures Exact(o) ==> RowFormula(o, FreshRow(o, now, userId, userAgent, ip))
  {
  }

  lemma TouchedOk(o: Options, r: Row, now: int)
    requires Loadable(o) && RowBounds(o, r) && (Exact(o) ==> RowFormula(o, r))
    ensures RowBounds(o, Touched(o, r, now))
    ensures Exact(o) ==> RowFormula(o, Touched(o, r, now))
    ensures SameSession(o, r, Touched(o, r, now))
    ensures Touched(o, r, now) != r ==>
      && Touched(o, r, now).lastSeenAt >= r.lastSeenAt + 60
      && Touched(o, r, now).lastSeenAt * SECOND < r.expiresAt * SECOND
  {
  }

  /** The throttle does not weaken the sliding window by more than itself and a second: after a Touch of
      a live session it stays alive for the rest of the idle timeout, up to its cap. */
  lemma SlidingPromise(o: Options, r: Row, now: int, later: int)
    requires Exact(o) && RowFormula(o, r) && Alive(r, now)
    requires later <= now + o.idle - TOUCH_THROTTLE - SECOND && later <= r.createdAt * SECOND + o.lifetime - SECOND
    ensures Alive(Touched(o, r, now), later)
  {
  }

  predicate KeptUp(o: Options, r: Row, times: seq<int>) {
    && (forall i :: 0 <= i < |times| ==> times[i] <= r.createdAt * SECOND + o.lifetime - SECOND)
    && (forall i :: 0 < i < |times| ==> times[i] <= times[i - 1] + o.idle - TOUCH_THROTTLE - SECOND)
  }

  function TouchedAt(o: Options, r: Row, times: seq<int>): Row
    decreases |times|
  {
    if times == [] then r else TouchedAt(o, Touched(o, r, times[0]), times[1..])
  }

  /** A session that is used often enough is never found expired before its cap: each Touch in turn
      finds it alive. */
  lemma {:induction false} ActiveStaysAlive(o: Options, r: Row, times: seq<int>, n: nat)
    requires Loadable(o) && Exact(o) && RowBounds(o, r) && RowFormula(o, r)
    requires n < |times| && KeptUp(o, r, times) && Alive(r, times[0])
    ensures Alive(TouchedAt(o, r, times[..n]), times[n])
    decreases n
  {
    if n == 0 {
      assert times[..0] == [];
    } else {
      var next := Touched(o, r, times[0]);
      TouchedOk(o, r, times[0]);
      SlidingPromise(o, r, times[0], times[1]);
      assert times[..n][1..] == times[1..][..n - 1];
      assert forall i :: 0 <= i < |times[1..]| ==> times[1..][i] == times[i + 1];
      hide Touched, Alive, RowFormula, Exact;
      assert KeptUp(o, next, times[1..]) by {
        forall i | 0 < i < |times[1..]|
          ensures times[1..][i] <= times[1..][i - 1] + o.idle - TOUCH_THROTTLE - SECOND
        {
          assert times[i + 1] <= times[i] + o.idle - TOUCH_THROTTLE - SECOND;
        }
      }
      ActiveStaysAlive(o, next, times[1..], n - 1);
    }
  }

  // All histories

  lemma CommitMoves(o: Options, h: History, op: Op)
    requires Loadable(o) && h != [] && HistoryOk(o, h) && Possible(h, op)
    ensures RowsOk(o, Commit(o, h, op))
    ensures MovesForward(o, Current(h), Commit(o, h, op))
    ensures forall id :: id in Commit(o, h, op) ==> id in Current(h) || !Minted(h, |h| - 1, id)
  {
    var rows, next := Current(h), Commit(o, h, op);
    assert RowsOk(o, rows);
    forall id | id in next
      ensures RowBounds(o, next[id]) && (Exact(o) ==> RowFormula(o, next[id]))
      ensures id in rows && !(op.Create? && op.id == id) ==> SameSession(o, rows[id], next[id])
    {
      if op.Create? && op.id == id {
        FreshRowOk(o, op.now, op.userId, op.userAgent, op.ip);
      } else {
        TouchedOk(o, rows[id], if op.Touch? then op.now else 0);
      }
    }
  }

  lemma CommitOk(o: Options, h: History, op: Op)
    requires Loadable(o) && h != [] && HistoryOk(o, h) && Possible(h, op)
    ensures HistoryOk(o, h + [Commit(o, h, op)])
  {
    hide RowBounds, RowFormula, Commit;
    var last := |h| - 1;
    var next := Commit(o, h, op);
    var h' := h + [next];
    CommitMoves(o, h, op);
    forall i, k, id | 0 <= i <= last && k == |h| && id in h'[i] && id in h'[k]
      ensures forall j :: i <= j <= k ==> id in h'[j]
      ensures SameSession(o, h'[i][id], next[id])
    {
      assert Minted(h, last, id);
      assert id in h[last];
      assert SameSession(o, h[i][id], h[last][id]) by { assert MovesForward(o, h[i], h[last]); }
      assert SameSession(o, h[last][id], next[id]);
    }
    forall i, j | 0 <= i <= j < |h'|
      ensures MovesForward(o, h'[i], h'[j])
    {
      if j == |h| && i == j {
      } else if j < |h| {
        assert MovesForward(o, h[i], h[j]);
      }
    }
  }

  lemma {:induction false} ExecOk(o: Options, h: History, ops: seq<Op>)
    requires Loadable(o) && h != [] && HistoryOk(o, h) && Histories(o, h, ops)
    ensures HistoryOk(o, Exec(o, h, ops))
    decreases |ops|
  {
    hide HistoryOk, Commit;
    if ops != [] {
      CommitOk(o, h, ops[0]);
      ExecOk(o, h + [Commit(o, h, ops[0])], ops[1..]);
    }
  }

  /** Whatever the order in which clocks were captured and operations committed: every row ever
      committed obeys the documented formula (for the durations that allow it), and from any version to
      any later one the same id is the same session with no column moved back. */
  lemma RowsEverywhere(o: Options, ops: seq<Op>)
    requires Loadable(o) && Histories(o, EMPTY_HISTORY, ops)
    ensures var h := Exec(o, EMPTY_HISTORY, ops);
      && (forall i, id :: 0 <= i < |h| && id in h[i] ==>
           RowBounds(o, h[i][id]) && (Exact(o) ==> RowFormula(o, h[i][id])))
      && (forall i, j, id :: 0 <= i <= j < |h| && id in h[i] && id in h[j] ==> SameSession(o, h[i][id], h[j][id]))
      && (forall i, j, k, id :: 0 <= i <= j <= k < |h| && id in h[i] && id in h[k] ==> id in h[j])
  {
    hide RowBounds, RowFormula;
    ExecOk(o, EMPTY_HISTORY, ops);
    var h := Exec(o, EMPTY_HISTORY, ops);
    forall i, id | 0 <= i < |h| && id in h[i]
      ensures RowBounds(o, h[i][id]) && (Exact(o) ==> RowFormula(o, h[i][id]))
    {
      assert RowsOk(o, h[i]);
    }
    forall i, j, id | 0 <= i <= j < |h| && id in h[i] && id in h[j]
      ensures SameSession(o, h[i][id], h[j][id])
    {
      assert MovesForward(o, h[i], h[j]);
    }
  }

  ghost predicate FormulaEverywhere(o: Options, h: History) {
    forall i, id :: 0 <= i < |h| && id in h[i] ==> RowFormula(o, h[i][id])
  }

  /** The formula holds of every row of every version of every run exactly for these durations. */
  lemma FormulaHoldsIff(o: Options)
    requires Loadable(o)
    ensures Exact(o) <==>
      forall ops | Histories(o, EMPTY_HISTORY, ops) :: FormulaEverywhere(o, Exec(o, EMPTY_HISTORY, ops))
  {
    if Exact(o) {
      forall ops | Histories(o, EMPTY_HISTORY, ops)
        ensures FormulaEverywhere(o, Exec(o, EMPTY_HISTORY, ops))
      {
        RowsEverywhere(o, ops);
      }
    } else {
      var ops := BreakingRun(o);
    }
  }

  /** A run of the code that breaks the formula: a Create is enough if the idle timeout has a fraction;
      otherwise one session is renewed every minute until the cap cuts it. */
  lemma BreakingRun(o: Options) returns (ops: seq<Op>)
    requires Loadable(o) && !Exact(o)
    ensures Histories(o, EMPTY_HISTORY, ops) && !FormulaEverywhere(o, Exec(o, EMPTY_HISTORY, ops))
  {
    var create := Create("id", 0, 0, "", "");
    var h := EMPTY_HISTORY + [Commit(o, EMPTY_HISTORY, create)];
    assert h[1]["id"] == FreshRow(o, 0, 0, "", "");
    var rest := [];
    if o.idle % SECOND == 0 {
      rest := RenewUntilCut(o, h, 0);
    } else {
      assert !RowFormula(o, h[1]["id"]);
    }
    ops := [create] + rest;
    assert ops[1..] == rest;
  }

  /** The session was renewed in its minute number n, and its cap is still further away than its idle timeout. */
  lemma RenewUntilCut(o: Options, h: History, n: nat) returns (ops: seq<Op>)
    requires o.idle % SECOND == 0 && o.idle > TOUCH_THROTTLE && o.lifetime % SECOND != 0
    requires n * TOUCH_THROTTLE + o.idle <= o.lifetime
    requires h != [] && "id" in Current(h)
    requires Current(h)["id"] == Row(0, 0, 60 * n, 60 * n + o.idle / SECOND, "", "")
    ensures Histories(o, h, ops) && !FormulaEverywhere(o, Exec(o, h, ops))
    decreases o.lifetime - n * TOUCH_THROTTLE
  {
    var touch := Touch("id", (n + 1) * TOUCH_THROTTLE, |h| - 1);
    var row := Current(h)["id"];
    assert Alive(row, touch.now) && !Throttled(row, touch.now);
    var next := Commit(o, h, touch);
    assert next["id"] == Touched(o, row, touch.now);
    var h' := h + [next];
    var rest := [];
    if (n + 1) * TOUCH_THROTTLE + o.idle <= o.lifetime {
      rest := RenewUntilCut(o, h', n + 1);
    } else {
      assert !RowFormula(o, h'[|h|]["id"]);
    }
    ops := [touch] + rest;
    assert ops[1..] == rest;
  }

  // The unlocked pre-read

  /** A Touch whose pre-read may be arbitrarily stale does what the transaction alone would do, except
      exactly when its id had not been minted by the version read, and its row is there by the time of the
      transaction, alive and not throttled. */
  lemma FastPathDiffersIff(o: Options, h: History, seen: nat, now: int, id: Id)
    requires h != [] && HistoryOk(o, h) && seen < |h|
    ensures TouchFast(o, Current(h), h[seen], now, id) != TouchTx(o, Current(h), now, id)
       <==> !Minted(h, seen, id)
            && id in Current(h) && Alive(Current(h)[id], now) && !Throttled(Current(h)[id], now)
  {
    var rows := Current(h);
    if id in h[seen] {
      assert Minted(h, seen, id);
      assert MovesForward(o, h[seen], rows);
      if id in rows && Throttled(h[seen][id], now) {
        assert rows[id := rows[id]] == rows;
      }
    } else if id in rows {
      if Alive(rows[id], now) && !Throttled(rows[id], now) {
        assert Touched(o, rows[id], now).lastSeenAt != rows[id].lastSeenAt;
      } else {
        assert rows[id := rows[id]] == rows;
      }
    }
  }

  function SlowOp(o: Options, h: History, op: Op): Table
    requires h != [] && (op.Touch? ==> op.seen < |h|)
  {
    if op.Touch? then TouchTx(o, Current(h), op.now, op.id) else Commit(o, h, op)
  }

  /** The same operations with every Touch going straight to its transaction. */
  ghost function ExecSlow(o: Options, h: History, ops: seq<Op>): History
    requires h != [] && (forall k :: 0 <= k < |ops| && ops[k].Touch? ==> ops[k].seen < |h| + k)
    decreases |ops|
  {
    if ops == [] then h else ExecSlow(o, h + [SlowOp(o, h, ops[0])], ops[1..])
  }

  /** Callers touch only ids that they were given: minted no later than the version they then read. */
  ghost predicate Known(o: Options, h: History, ops: seq<Op>)
    requires h != [] && Histories(o, h, ops)
    decreases |ops|
  {
    if ops == [] then true
    else
      && (ops[0].Touch? ==> Minted(h, ops[0].seen, ops[0].id))
      && Known(o, h + [Commit(o, h, ops[0])], ops[1..])
  }

  lemma {:induction false} SeenBounds(o: Options, h: History, ops: seq<Op>)
    requires h != [] && Histories(o, h, ops)
    ensures forall k :: 0 <= k < |ops| && ops[k].Touch? ==> ops[k].seen < |h| + k
    decreases |ops|
  {
    if ops != [] {
      SeenBounds(o, h + [Commit(o, h, ops[0])], ops[1..]);
      forall k | 0 <= k < |ops| && ops[k].Touch?
        ensures ops[k].seen < |h| + k
      {
        if k > 0 { assert ops[1..][k - 1] == ops[k]; }
      }
    }
  }

  /** The fast path refines the slow path over whole runs: the committed versions are the same. */
  lemma {:induction false} FastRefinesSlow(o: Options, h: History, ops: seq<Op>)
    requires Loadable(o) && h != [] && HistoryOk(o, h) && Histories(o, h, ops) && Known(o, h, ops)
    ensures forall k :: 0 <= k < |ops| && ops[k].Touch? ==> ops[k].seen < |h| + k
    ensures ExecSlow(o, h, ops) == Exec(o, h, ops)
    decreases |ops|
  {
    hide HistoryOk;
    SeenBounds(o, h, ops);
    if ops != [] {
      var op := ops[0];
      if op.Touch? { FastPathDiffersIff(o, h, op.seen, op.now, op.id); }
      CommitOk(o, h, op);
      var h' := h + [Commit(o, h, op)];
      assert SlowOp(o, h, op) == Commit(o, h, op);
      FastRefinesSlow(o, h', ops[1..]);
    }
  }

  lemma EmptyOk(o: Options)
    ensures HistoryOk(o, EMPTY_HISTORY)
  {
  }

  /** A guessed id: the pre-read finds nothing, a slow Create commits, and the transaction alone would
      have renewed the session that the fast path leaves as it is. */
  lemma GuessedIdDiffers()
    ensures var o := Options(1000 * SECOND, 500 * SECOND);
      var h := [map[], map["guess" := FreshRow(o, 0, 7, "", "")]];
      && HistoryOk(o, h) && !Minted(h, 0, "guess")
      && TouchFast(o, Current(h), h[0], 60 * SECOND, "guess") != TouchTx(o, Current(h), 60 * SECOND, "guess")
  {
    var o := Options(1000 * SECOND, 500 * SECOND);
    var h := [map[], map["guess" := FreshRow(o, 0, 7, "", "")]];
    EmptyOk(o);
    assert Commit(o, EMPTY_HISTORY, Create("guess", 0, 7, "", "")) == h[1];
    CommitOk(o, EMPTY_HISTORY, Create("guess", 0, 7, "", ""));
    assert h == EMPTY_HISTORY + [h[1]];
    FastPathDiffersIff(o, h, 0, 60 * SECOND, "guess");
    assert TouchTx(o, Current(h), 60 * SECOND, "guess")["guess"].lastSeenAt == 60;
  }

  // How often one session is written

  /** Versions in which the row of id differs from its row in the version before. */
  function Writes(h: History, id: Id): nat {
    if |h| < 2 then 0
    else
      var before, after := h[|h| - 2], h[|h| - 1];
      Writes(h[..|h| - 1], id) + (if id in before && id in after && before[id] != after[id] then 1 else 0)
  }

  /** A duration in seconds, rounded up. */
  function WholeSeconds(d: int): int { (d + SECOND - 1) / SECOND }

  ghost predicate Budget(o: Options, h: History, id: Id)
    requires h != []
  {
    && (Writes(h, id) > 0 ==> Minted(h, |h| - 1, id))
    && (Writes(h, id) > 0 ==> 60 * Writes(h, id) < WholeSeconds(o.lifetime))
    && (id in Current(h) ==> Current(h)[id].lastSeenAt >= Current(h)[id].createdAt + 60 * Writes(h, id))
  }

  lemma CurrentRowsOk(o: Options, h: History, id: Id)
    requires h != [] && HistoryOk(o, h)
    ensures id in Current(h) ==> RowBounds(o, Current(h)[id]) && (Exact(o) ==> RowFormula(o, Current(h)[id]))
  {
    assert RowsOk(o, h[|h| - 1]);
  }

  lemma CommitBudget(o: Options, h: History, op: Op, id: Id)
    requires Loadable(o) && h != [] && HistoryOk(o, h) && Possible(h, op) && Budget(o, h, id)
    ensures Budget(o, h + [Commit(o, h, op)], id)
  {
    hide HistoryOk;
    var rows, next := Current(h), Commit(o, h, op);
    var h' := h + [next];
    assert h'[..|h'| - 1] == h;
    CurrentRowsOk(o, h, id);
    if id in rows && op.Touch? { TouchedOk(o, rows[id], op.now); }
  }

  lemma {:induction false} ExecBudget(o: Options, h: History, ops: seq<Op>, id: Id)
    requires Loadable(o) && h != [] && HistoryOk(o, h) && Histories(o, h, ops) && Budget(o, h, id)
    ensures Budget(o, Exec(o, h, ops), id)
    decreases |ops|
  {
    hide HistoryOk, Budget, Commit;
    if ops != [] {
      CommitOk(o, h, ops[0]);
      CommitBudget(o, h, ops[0], id);
      ExecBudget(o, h + [Commit(o, h, ops[0])], ops[1..], id);
    }
  }

  /** However many Touch calls are made and however they interleave, the updates ever applied to one
      session are fewer than its lifetime has minutes. */
  lemma WriteBudget(o: Options, ops: seq<Op>, id: Id)
    requires Loadable(o) && Histories(o, EMPTY_HISTORY, ops)
    ensures var k := Writes(Exec(o, EMPTY_HISTORY, ops), id);
      k > 0 ==> 60 * k < WholeSeconds(o.lifetime)
  {
    EmptyOk(o);
    ExecBudget(o, EMPTY_HISTORY, ops, id);
  }
}
