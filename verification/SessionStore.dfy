/** The sessions table of internal/session/store.go and the operations on it.
    Clocks are nanoseconds since the epoch, columns whole seconds. A method's `now` is the clock that
    the operation captured on entry, which may be long before its transaction commits. */
module SessionStore {
  import opened Basics

  const TOUCH_THROTTLE := 60 * SECOND

  type Id = string

  datatype Row = Row(userId: int, createdAt: int, lastSeenAt: int, expiresAt: int, userAgent: string, ip: string)

  type Table = map<Id, Row>

  /** Both durations in nanoseconds. */
  datatype Options = Options(lifetime: int, idle: int)

  /** What the configuration loader enforces. */
  predicate Loadable(o: Options) { o.idle <= o.lifetime }

  datatype Lookup = Live(row: Row) | Expired | NotFound

  /** The session as Create hands it to its caller, with times in nanoseconds. */
  datatype Session = Session(
    id: Id, userId: int, createdAt: int, lastSeenAt: int, expiresAt: int, userAgent: string, ip: string)

  datatype CreateResult = Created(session: Session) | InsertFailed

  function Min(a: int, b: int): int { if a <= b then a else b }

  function FreshRow(o: Options, now: int, userId: int, userAgent: string, ip: string): Row {
    Row(userId, Unix(now), Unix(now), Unix(now + o.idle), userAgent, ip)
  }

  predicate Throttled(r: Row, now: int) { now - r.lastSeenAt * SECOND < TOUCH_THROTTLE }

  predicate Alive(r: Row, now: int) { now < r.expiresAt * SECOND }

  /** The in-transaction half of Touch on one row. */
  function Touched(o: Options, r: Row, now: int): Row {
    if !Alive(r, now) || Throttled(r, now) then r
    else r.(lastSeenAt := Unix(now), expiresAt := Unix(Min(now + o.idle, r.createdAt * SECOND + o.lifetime)))
  }

  function TouchTx(o: Options, rows: Table, now: int, id: Id): Table {
    if id in rows then rows[id := Touched(o, rows[id], now)] else rows
  }

  /** The unlocked pre-read, on whatever committed version the reader happened to see. */
  predicate FastPathStops(seen: Table, now: int, id: Id) {
    id !in seen || Throttled(seen[id], now)
  }

  function TouchFast(o: Options, rows: Table, seen: Table, now: int, id: Id): Table {
    if FastPathStops(seen, now, id) then rows else TouchTx(o, rows, now, id)
  }

  function Look(rows: Table, now: int, id: Id): Lookup {
    if id !in rows then NotFound else if Alive(rows[id], now) then Live(rows[id]) else Expired
  }

  function WithoutUser(rows: Table, userId: int): Table {
    map id | id in rows && rows[id].userId != userId :: rows[id]
  }

  function Swept(rows: Table, now: int): Table {
    map id | id in rows && !(rows[id].expiresAt < Unix(now)) :: rows[id]
  }

  class Store {
    const o: Options
    var rows: Table

    constructor (o: Options)
      ensures this.o == o && rows == map[]
    {
      this.o := o;
      rows := map[];
    }

    /** `id` stands for generateID's random value, which the primary key refuses if it is taken; `dbUp` is
        whether the database carries the insert out at all. The caller is told the clock itself, the row
        has its second. */
    method Create(id: Id, now: int, userId: int, userAgent: string, ip: string, dbUp: bool) returns (r: CreateResult)
      modifies this
      ensures r.InsertFailed? <==> !dbUp || id in old(rows)
      ensures r.InsertFailed? ==> rows == old(rows)
      ensures r.Created? ==> r.session == Session(id, userId, now, now, now + o.idle, userAgent, ip)
      ensures r.Created? ==>
        rows == old(rows)[id := Row(userId, now / SECOND, now / SECOND, (now + o.idle) / SECOND, userAgent, ip)]
      ensures r.Created? ==> rows[id] == FreshRow(o, now, userId, userAgent, ip)
      ensures r.Created? ==> 0 <= r.session.expiresAt - rows[id].expiresAt * SECOND < SECOND
      ensures r.Created? && o.idle >= SECOND ==> Look(rows, now, id) == Live(rows[id])
    {
      if !dbUp || id in rows {
        return InsertFailed;
      }
      var expires := now + o.idle;
      rows := rows[id := Row(userId, Unix(now), Unix(now), Unix(expires), userAgent, ip)];
      r := Created(Session(id, userId, now, now, expires, userAgent, ip));
    }

    method Get(id: Id, now: int) returns (r: Lookup)
      ensures r.NotFound? <==> id !in rows
      ensures r.Expired? <==> id in rows && rows[id].expiresAt * SECOND <= now
      ensures r.Live? ==> id in rows && r.row == rows[id]
    {
      if id !in rows {
        return NotFound;
      }
      var row := rows[id];
      if !(now < row.expiresAt * SECOND) {
        return Expired;
      }
      r := Live(row);
    }

    /** `seen` is the version of the table that the reader pool returned to the pre-check. */
    method Touch(id: Id, now: int, seen: Table)
      modifies this
      ensures rows == TouchFast(o, old(rows), seen, now, id)
      ensures
        var renews :=
          && id in seen && seen[id].lastSeenAt * SECOND + 60 * SECOND <= now
          && id in old(rows) && old(rows)[id].lastSeenAt * SECOND + 60 * SECOND <= now
          && now < old(rows)[id].expiresAt * SECOND;
        rows == if !renews then old(rows)
                else old(rows)[id := old(rows)[id].(lastSeenAt := now / SECOND,
                  expiresAt := Min(now + o.idle, old(rows)[id].createdAt * SECOND + o.lifetime) / SECOND)]
    {
      if id !in seen {
        return;
      }
      if now - seen[id].lastSeenAt * SECOND < TOUCH_THROTTLE {
        return;
      }
      if id !in rows {
        return;
      }
      var row := rows[id];
      if !(now < row.expiresAt * SECOND) {
        assert rows == rows[id := row];
        return;
      }
      if now - row.lastSeenAt * SECOND < TOUCH_THROTTLE {
        assert rows == rows[id := row];
        return;
      }
      var absoluteCap := row.createdAt * SECOND + o.lifetime;
      var newExpires := now + o.idle;
      if newExpires > absoluteCap {
        newExpires := absoluteCap;
      }
      rows := rows[id := row.(lastSeenAt := Unix(now), expiresAt := Unix(newExpires))];
    }

    /** Idempotent: afterwards every Get of the id is told that there is no such session, and nobody else's
        answer changes. */
    method Delete(id: Id)
      modifies this
      ensures rows == old(rows) - {id}
      ensures forall now :: Look(rows, now, id) == NotFound
      ensures forall now, other :: other != id ==> Look(rows, now, other) == Look(old(rows), now, other)
    {
      rows := rows - {id};
    }

    method DeleteAllForUser(userId: int)
      modifies this
      ensures rows == WithoutUser(old(rows), userId)
      ensures forall now, id ::
        && (id in old(rows) && old(rows)[id].userId == userId ==> Look(rows, now, id) == NotFound)
        && (id !in old(rows) || old(rows)[id].userId != userId ==> Look(rows, now, id) == Look(old(rows), now, id))
    {
      rows := map id | id in rows && rows[id].userId != userId :: rows[id];
    }

    /** Only rows that every later Get would report expired are removed, and all of those that
        expired in an earlier second are. */
    method Sweep(now: int) returns (deleted: nat)
      modifies this
      ensures rows == Swept(old(rows), now)
      ensures deleted == |old(rows)| - |rows|
      ensures forall id :: id in old(rows) && id !in rows ==> !Alive(old(rows)[id], now)
      ensures forall id :: id in old(rows) && (old(rows)[id].expiresAt + 1) * SECOND <= now ==> id !in rows
    {
      var dead := set id | id in rows && rows[id].expiresAt < Unix(now);
      var kept := map id | id in rows && !(rows[id].expiresAt < Unix(now)) :: rows[id];
      assert kept.Keys == rows.Keys - dead;
      assert |kept.Keys| == |rows.Keys| - |dead|;
      deleted := |dead|;
      rows := kept;
    }
  }
}
