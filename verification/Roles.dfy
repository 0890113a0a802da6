/** Role lists as one comma-separated column (internal/user/store.go), and the command-line splitter
    that feeds it (cmd/forge-proxy/admin.go). */
module Roles {
  import opened Basics
  import opened Text

  predicate IsRoleChar(c: char) {
    'A' <= c <= 'Z' || 'a' <= c <= 'z' || '0' <= c <= '9' || c == '_' || c == '-'
  }

  /** roleNameRe. */
  predicate ValidRole(r: string) { r != "" && forall i :: 0 <= i < |r| ==> IsRoleChar(r[i]) }

  predicate AllValid(rs: seq<string>) { forall i :: 0 <= i < |rs| ==> ValidRole(rs[i]) }

  /** The entries of a list with their outer spaces and the empty ones dropped. */
  function Entries(raw: string): seq<string> { NonEmpty(TrimAll(Split(raw, ','))) }

  function ParseRoles(raw: string): Option<seq<string>> {
    if AllValid(Entries(raw)) then Some(Entries(raw)) else None
  }

  /** What the parts from number i on contribute to the list. */
  function Rest(parts: seq<string>, i: nat): seq<string>
    requires i <= |parts|
  {
    NonEmpty(TrimAll(parts[i..]))
  }

  lemma RestStep(parts: seq<string>, i: nat, out: seq<string>)
    requires i < |parts|
    ensures out + Rest(parts, i)
         == (if Trim(parts[i]) == "" then out else out + [Trim(parts[i])]) + Rest(parts, i + 1)
  {
    assert parts[i..][1..] == parts[i + 1..];
  }

  lemma RestEnds(raw: string)
    ensures Rest(Split(raw, ','), 0) == Entries(raw)
    ensures Rest(Split(raw, ','), |Split(raw, ',')|) == []
    ensures Entries("") == []
  {
    var parts := Split(raw, ',');
    assert parts[0..] == parts;
    assert TrimAll([""]) == [""];
  }

  /** parseRoles: None is its error. */
  method ParseRolesColumn(raw: string) returns (r: Option<seq<string>>)
    ensures r == ParseRoles(raw)
  {
    RestEnds(raw);
    if raw == "" {
      return Some([]);
    }
    hide Rest, Entries, Trim, ValidRole;
    var parts := Split(raw, ',');
    var out := [];
    for i := 0 to |parts|
      invariant AllValid(out)
      invariant Entries(raw) == out + Rest(parts, i)
    {
      RestStep(parts, i, out);
      var trimmed := Trim(parts[i]);
      if trimmed == "" {
        continue;
      }
      if !ValidRole(trimmed) {
        assert Entries(raw)[|out|] == trimmed;
        return None;
      }
      out := out + [trimmed];
    }
    assert Entries(raw) == out;
    r := Some(out);
  }

  /** parseRolesArg. */
  method ParseRolesArg(raw: string) returns (out: seq<string>)
    ensures out == Entries(raw)
  {
    var s := Trim(raw);
    SplitTrimmed(raw, ',');
    assert Entries(s) == Entries(raw);
    RestEnds(s);
    if s == "" {
      return [];
    }
    hide Rest, Entries, Trim;
    var parts := Split(s, ',');
    out := [];
    for i := 0 to |parts|
      invariant Entries(s) == out + Rest(parts, i)
    {
      RestStep(parts, i, out);
      var trimmed := Trim(parts[i]);
      if trimmed == "" {
        continue;
      }
      out := out + [trimmed];
    }
  }

  lemma ValidRoleFacts(r: string)
    requires ValidRole(r)
    ensures ',' !in r && Trimmed(r) && r != ""
  {
    assert forall c :: c in r ==> exists i :: 0 <= i < |r| && r[i] == c;
  }

  lemma {:induction false} TrimAllValid(rs: seq<string>)
    requires AllValid(rs)
    ensures TrimAll(rs) == rs
  {
    if rs != [] {
      ValidRoleFacts(rs[0]);
      TrimOfTrimmed(rs[0]);
      TrimAllValid(rs[1..]);
      assert rs == [rs[0]] + rs[1..];
    }
  }

  /** Parsing undoes the join that SetRoles writes, for every list of valid names. */
  lemma ParseUndoesJoin(rs: seq<string>)
    requires AllValid(rs)
    ensures ParseRoles(Join(rs, ",")) == Some(rs)
  {
    if rs == [] {
      assert TrimAll([""]) == [""];
    } else {
      forall k | 0 <= k < |rs|
        ensures ',' !in rs[k] && rs[k] != ""
      {
        ValidRoleFacts(rs[k]);
      }
      SplitJoin(rs, ',');
      TrimAllValid(rs);
      NonEmptyAll(rs);
    }
  }

  /** Whatever column value is accepted, writing its roles back and reading them again changes nothing. */
  lemma AcceptedIsFixedPoint(raw: string)
    requires ParseRoles(raw).Some?
    ensures AllValid(ParseRoles(raw).value)
    ensures ParseRoles(Join(ParseRoles(raw).value, ",")) == ParseRoles(raw)
  {
    ParseUndoesJoin(ParseRoles(raw).value);
  }

  /** Which names a list has: every entry without its outer spaces, except the blank ones. */
  lemma EntriesAre(raw: string, role: string)
    ensures role in Entries(raw) <==>
      role != "" && exists k :: 0 <= k < |Split(raw, ',')| && role == Trim(Split(raw, ',')[k])
  {
    NonEmptyFacts(TrimAll(Split(raw, ',')));
    TrimAllMembers(Split(raw, ','), role);
    assert role in Entries(raw) <==> role in TrimAll(Split(raw, ',')) && role != "";
  }

  /** A list may be written with a space after each comma. */
  lemma SpacedListParses(rs: seq<string>)
    requires AllValid(rs) && rs != []
    ensures ParseRoles(Join(rs, ", ")) == Some(rs)
  {
    forall k | 0 <= k < |rs|
      ensures ',' !in rs[k] && Trimmed(rs[k]) && rs[k] != ""
    {
      ValidRoleFacts(rs[k]);
    }
    hide AllValid, Trimmed, Split;
    SplitJoinSpaced(rs, ',');
    NonEmptyAll(rs);
    assert [',', ' '] == ", ";
  }

  // The users table

  datatype Claims = Claims(slackUserId: string, slackTeamId: string, email: string, name: string, avatarUrl: string)

  datatype UserRow = UserRow(
    id: int, slackTeamId: string, email: string, name: string, avatarUrl: string, roles: string,
    createdAt: int, lastLoginAt: int)

  /** Rows by slack_user_id, which is unique. */
  type Users = map<string, UserRow>

  function Refreshed(row: UserRow, c: Claims, now: int): UserRow {
    row.(slackTeamId := c.slackTeamId, email := c.email, name := c.name, avatarUrl := c.avatarUrl, lastLoginAt := now)
  }

  /** Sign-in. A column that does not parse rolls the transaction back. */
  function AfterSignIn(users: Users, nextId: int, c: Claims, now: int): Users {
    if c.slackUserId !in users then
      users[c.slackUserId := UserRow(nextId, c.slackTeamId, c.email, c.name, c.avatarUrl, "", now, now)]
    else if ParseRoles(users[c.slackUserId].roles).None? then users
    else users[c.slackUserId := Refreshed(users[c.slackUserId], c, now)]
  }

  function Reassigned(row: UserRow, id: int, column: string): UserRow {
    if row.id == id then row.(roles := column) else row
  }

  function AfterSetRoles(users: Users, id: int, roles: seq<string>): Users {
    if !AllValid(roles) then users else map s | s in users :: Reassigned(users[s], id, Join(roles, ","))
  }

  datatype Db = Db(users: Users, nextId: int)

  /** Ids are unique and never reused. What a column holds is not assumed: rows can be edited by hand. */
  ghost predicate DbOk(d: Db) {
    && (forall s :: s in d.users ==> d.users[s].id < d.nextId)
    && (forall s, t :: s in d.users && t in d.users && d.users[s].id == d.users[t].id ==> s == t)
  }

  lemma SetKeepsOk(d: Db, id: int, roles: seq<string>)
    requires DbOk(d)
    ensures DbOk(Db(AfterSetRoles(d.users, id, roles), d.nextId))
  {
    hide AllValid, Join;
  }

  datatype SetResult = RolesSet | InvalidRole | UserNotFound

  datatype SignInResult = SignedIn(id: int, roles: seq<string>) | CorruptRoles

  class UserStore {
    var users: Users
    var nextId: int

    constructor ()
      ensures Valid() && users == map[]
    {
      users := map[];
      nextId := 1;
    }

    ghost predicate Valid()
      reads this
    {
      DbOk(Db(users, nextId))
    }

    /** Clock values are whole seconds. A column that does not parse is the one error, and it undoes the
        refresh of the profile that came before it. */
    method UpsertFromOIDC(c: Claims, now: int) returns (r: SignInResult)
      requires Valid()
      modifies this
      ensures Valid()
      ensures users == AfterSignIn(old(users), old(nextId), c, now)
      ensures r.CorruptRoles? <==>
        c.slackUserId in old(users) && ParseRoles(old(users)[c.slackUserId].roles).None?
      ensures r.CorruptRoles? ==> users == old(users)
      ensures r.SignedIn? ==>
        && c.slackUserId in users && r.id == users[c.slackUserId].id
        && ParseRoles(users[c.slackUserId].roles) == Some(r.roles)
        && var row := users[c.slackUserId];
        && row.slackTeamId == c.slackTeamId && row.email == c.email && row.name == c.name
        && row.avatarUrl == c.avatarUrl && row.lastLoginAt == now
        && row.createdAt == if c.slackUserId in old(users) then old(users)[c.slackUserId].createdAt else now
      ensures users - {c.slackUserId} == old(users) - {c.slackUserId}
      ensures c.slackUserId in old(users) ==>
        && users[c.slackUserId].roles == old(users)[c.slackUserId].roles
        && users[c.slackUserId].id == old(users)[c.slackUserId].id
      ensures c.slackUserId !in old(users) ==> r == SignedIn(old(nextId), [])
    {
      if c.slackUserId !in users {
        ParseUndoesJoin([]);
        users := users[c.slackUserId := UserRow(nextId, c.slackTeamId, c.email, c.name, c.avatarUrl, "", now, now)];
        r := SignedIn(nextId, []);
        nextId := nextId + 1;
        return;
      }
      hide ParseRoles;
      var before, row := users, users[c.slackUserId];
      users := users[c.slackUserId := Refreshed(row, c, now)];
      var roles := ParseRolesColumn(row.roles);
      if roles.None? {
        users := before;
        return CorruptRoles;
      }
      r := SignedIn(row.id, roles.value);
    }

    method SetRoles(id: int, roles: seq<string>) returns (r: SetResult)
      requires Valid()
      modifies this
      ensures Valid()
      ensures nextId == old(nextId) && users == AfterSetRoles(old(users), id, roles)
      ensures r.InvalidRole? <==> !AllValid(roles)
      ensures r.UserNotFound? <==> AllValid(roles) && forall s :: s in old(users) ==> old(users)[s].id != id
      ensures !r.RolesSet? ==> users == old(users)
      ensures r.RolesSet? ==> users.Keys == old(users).Keys && forall s :: s in users ==>
        users[s] == if old(users)[s].id == id then old(users)[s].(roles := Join(roles, ",")) else old(users)[s]
    {
      for i := 0 to |roles|
        invariant AllValid(roles[..i])
      {
        if !ValidRole(roles[i]) {
          return InvalidRole;
        }
      }
      assert roles[..|roles|] == roles;
      hide DbOk, Reassigned, Join;
      SetKeepsOk(Db(users, nextId), id, roles);
      var joined := Join(roles, ",");
      var found := exists s :: s in users && users[s].id == id;
      users := map s | s in users :: Reassigned(users[s], id, joined);
      r := if found then RolesSet else UserNotFound;
    }
  }

  /** Setting roles from the command line accepts exactly what reading the same text as a column would
      accept, and stores the same list. */
  lemma CliAgreesWithColumn(raw: string)
    ensures AllValid(Entries(raw)) <==> ParseRoles(raw).Some?
    ensures AllValid(Entries(raw)) ==> ParseRoles(Join(Entries(raw), ",")) == ParseRoles(raw)
  {
    if AllValid(Entries(raw)) { ParseUndoesJoin(Entries(raw)); }
  }

  // Runs of sign-ins and role changes

  datatype Op = SignIn(c: Claims, now: int) | Set(id: int, roles: seq<string>)

  function Apply(d: Db, op: Op): Db {
    match op
    case SignIn(c, now) =>
      Db(AfterSignIn(d.users, d.nextId, c, now), if c.slackUserId in d.users then d.nextId else d.nextId + 1)
    case Set(id, roles) => Db(AfterSetRoles(d.users, id, roles), d.nextId)
  }

  function Final(d: Db, ops: seq<Op>): Db
    decreases |ops|
  {
    if ops == [] then d else Final(Apply(d, ops[0]), ops[1..])
  }

  /** The roles of the last accepted Set for the id, or what a read of its column gave before. */
  function LastSet(ops: seq<Op>, id: int, before: Option<seq<string>>): Option<seq<string>> {
    if ops == [] then before
    else
      var last := ops[|ops| - 1];
      if last.Set? && last.id == id && AllValid(last.roles) then Some(last.roles)
      else LastSet(ops[..|ops| - 1], id, before)
  }

  lemma ApplyOk(d: Db, op: Op, s: string)
    requires DbOk(d) && s in d.users
    ensures DbOk(Apply(d, op)) && s in Apply(d, op).users && Apply(d, op).users[s].id == d.users[s].id
    ensures ParseRoles(Apply(d, op).users[s].roles) ==
      if op.Set? && op.id == d.users[s].id && AllValid(op.roles) then Some(op.roles) else ParseRoles(d.users[s].roles)
  {
    hide ParseRoles, AllValid, Join;
    if op.Set? {
      SetKeepsOk(d, op.id, op.roles);
      if AllValid(op.roles) { ParseUndoesJoin(op.roles); }
    }
  }

  lemma {:induction false} LastSetCons(ops: seq<Op>, id: int, before: Option<seq<string>>)
    requires ops != []
    ensures LastSet(ops, id, before) == LastSet(ops[1..], id, LastSet([ops[0]], id, before))
  {
    if |ops| == 1 {
      assert ops == [ops[0]];
      assert ops[1..] == [];
    } else {
      var front := ops[..|ops| - 1];
      LastSetCons(front, id, before);
      assert front[1..] == ops[1..][..|ops[1..]| - 1];
      assert ops[1..][|ops[1..]| - 1] == ops[|ops| - 1];
    }
  }

  /** However sign-ins and role changes interleave, a user keeps the id and has exactly the roles that
      were last set; no sign-in ever changes them, and a column that does not parse stays that way until
      roles are set. */
  lemma {:induction false} RolesSurviveSignIns(d: Db, ops: seq<Op>, s: string)
    requires DbOk(d) && s in d.users
    ensures DbOk(Final(d, ops)) && s in Final(d, ops).users && Final(d, ops).users[s].id == d.users[s].id
    ensures ParseRoles(Final(d, ops).users[s].roles) == LastSet(ops, d.users[s].id, ParseRoles(d.users[s].roles))
    decreases |ops|
  {
    if ops != [] {
      hide ParseRoles, Apply;
      ApplyOk(d, ops[0], s);
      RolesSurviveSignIns(Apply(d, ops[0]), ops[1..], s);
      LastSetCons(ops, d.users[s].id, ParseRoles(d.users[s].roles));
      assert [ops[0]][..0] == [];
    }
  }

  // The profile

  /** What a sign-in brings along, and when. */
  datatype Profile = Profile(slackTeamId: string, email: string, name: string, avatarUrl: string, lastLoginAt: int)

  function ProfileOf(row: UserRow): Profile {
    Profile(row.slackTeamId, row.email, row.name, row.avatarUrl, row.lastLoginAt)
  }

  /** The claims of the user's last sign-in that found a readable column, or what was there before. */
  function LastProfile(
    ops: seq<Op>, s: string, id: int, column: Option<seq<string>>, before: Profile): Profile
  {
    if ops == [] then before
    else
      var front, last := ops[..|ops| - 1], ops[|ops| - 1];
      if last.SignIn? && last.c.slackUserId == s && LastSet(front, id, column).Some? then
        Profile(last.c.slackTeamId, last.c.email, last.c.name, last.c.avatarUrl, last.now)
      else LastProfile(front, s, id, column, before)
  }

  lemma {:induction false} FinalSnoc(d: Db, ops: seq<Op>, op: Op)
    ensures Final(d, ops + [op]) == Apply(Final(d, ops), op)
    decreases |ops|
  {
    hide Apply;
    if ops == [] {
      assert [op][1..] == [];
      assert ops + [op] == [op];
    } else {
      assert (ops + [op])[1..] == ops[1..] + [op];
      FinalSnoc(Apply(d, ops[0]), ops[1..], op);
    }
  }

  lemma ApplyProfile(d: Db, op: Op, s: string)
    requires DbOk(d) && s in d.users
    ensures s in Apply(d, op).users
    ensures Apply(d, op).users[s].createdAt == d.users[s].createdAt
    ensures ProfileOf(Apply(d, op).users[s]) ==
      if op.SignIn? && op.c.slackUserId == s && ParseRoles(d.users[s].roles).Some? then
        Profile(op.c.slackTeamId, op.c.email, op.c.name, op.c.avatarUrl, op.now)
      else ProfileOf(d.users[s])
  {
    hide ParseRoles, AllValid, Join, DbOk;
  }

  /** Over every run of sign-ins and role changes a user's profile is that of the last sign-in that succeeded,
      and the creation time never changes. */
  lemma {:induction false} ProfileIsLastSignIn(d: Db, ops: seq<Op>, s: string)
    requires DbOk(d) && s in d.users
    ensures s in Final(d, ops).users && Final(d, ops).users[s].createdAt == d.users[s].createdAt
    ensures ProfileOf(Final(d, ops).users[s])
         == LastProfile(ops, s, d.users[s].id, ParseRoles(d.users[s].roles), ProfileOf(d.users[s]))
    decreases |ops|
  {
    if ops != [] {
      var front, last := ops[..|ops| - 1], ops[|ops| - 1];
      assert ops == front + [last];
      FinalSnoc(d, front, last);
      RolesSurviveSignIns(d, front, s);
      ApplyProfile(Final(d, front), last, s);
      hide Apply, Final, ParseRoles, DbOk, LastSet, ProfileOf;
      ProfileIsLastSignIn(d, front, s);
    }
  }

  ghost predicate ColumnsParse(d: Db) {
    forall s :: s in d.users ==> ParseRoles(d.users[s].roles).Some?
  }

  /** The program never stores a column that it could not read: from a table without one, no run of
      sign-ins and role changes leads to a sign-in that fails on its roles. */
  lemma {:induction false} ColumnsStayReadable(d: Db, ops: seq<Op>)
    requires DbOk(d) && ColumnsParse(d)
    ensures DbOk(Final(d, ops)) && ColumnsParse(Final(d, ops))
    decreases |ops|
  {
    if ops != [] {
      ApplyKeepsReadable(d, ops[0]);
      hide Apply, ColumnsParse;
      ColumnsStayReadable(Apply(d, ops[0]), ops[1..]);
    }
  }

  lemma ApplyKeepsReadable(d: Db, op: Op)
    requires DbOk(d) && ColumnsParse(d)
    ensures DbOk(Apply(d, op)) && ColumnsParse(Apply(d, op))
  {
    hide ParseRoles, AllValid, Join;
    EmptyColumn();
    if op.Set? {
      SetKeepsOk(d, op.id, op.roles);
      if AllValid(op.roles) { ParseUndoesJoin(op.roles); }
    }
  }

  lemma EmptyColumn()
    ensures ParseRoles("") == Some([])
  {
    ParseUndoesJoin([]);
  }
}
