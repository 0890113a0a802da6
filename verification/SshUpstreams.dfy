/** SSH_UPSTREAMS (parsePortSpec and parseSSHUpstreams in internal/config/config.go):
    "port=host:port|role,role;lo-hi=host|role". None stands for any of the source's errors. */
module SshUpstreams {
  import opened Basics
  import opened Text
  import opened Roles
  import opened EntryTable

  const MAX_SSH_PORT_RANGE := 256

  datatype SSHUpstream = SSHUpstream(port: int, target: HostPort, allowedRoles: seq<string>)

  datatype PortSpec = PortSpec(lo: int, hi: int, isRange: bool)

  type Table = map<int, SSHUpstream>

  function ParsePort(raw: string): Option<int> {
    match Atoi(Trim(raw))
    case None => None
    case Some(p) => if 1 <= p <= 65535 then Some(p) else None
  }

  function ParsePortSpec(portRaw: string): Option<PortSpec> {
    match Cut(portRaw, '-')
    case None =>
      (match ParsePort(portRaw)
       case None => None
       case Some(p) => Some(PortSpec(p, p, false)))
    case Some((loRaw, hiRaw)) =>
      var lo, hi := ParsePort(loRaw), ParsePort(hiRaw);
      if lo.None? || hi.None? || hi.value < lo.value || hi.value - lo.value + 1 > MAX_SSH_PORT_RANGE then None
      else Some(PortSpec(lo.value, hi.value, true))
  }

  /** The row for one listening port. A range derives the target's port from it. */
  function Row(spec: PortSpec, target: HostPort, roles: seq<string>, port: int): SSHUpstream {
    SSHUpstream(port, if spec.isRange then HostPort(target.host, FormatInt(port)) else target, roles)
  }

  function Expand(spec: PortSpec, target: HostPort, roles: seq<string>): Table {
    map p | spec.lo <= p <= spec.hi :: Row(spec, target, roles, p)
  }

  function Rows(spec: PortSpec, targetRaw: string, rolesRaw: string): Option<Table> {
    var target, roles := ParseHostPort(targetRaw), RoleList(rolesRaw);
    if targetRaw == "" || target.None? || roles.None? || spec.isRange != (target.value.port == "") then None
    else Some(Expand(spec, target.value, roles.value))
  }

  function ParseSSHEntry(entry: string): Option<Table> {
    match Cut(entry, '=')
    case None => None
    case Some((portRaw, rest)) =>
      match ParsePortSpec(Trim(portRaw))
      case None => None
      case Some(spec) =>
        match Cut(Trim(rest), '|')
        case None => None
        case Some((targetRaw, rolesRaw)) => Rows(spec, Trim(targetRaw), Trim(rolesRaw))
  }

  // The loops

  /** The inner loop: one row per port of the range, unless one is taken. */
  method AddPorts(m: Table, spec: PortSpec, target: HostPort, roles: seq<string>) returns (r: Option<Table>)
    requires 1 <= spec.lo <= spec.hi && PlainHost(target.host)
    ensures var c := Expand(spec, target, roles); r == if c.Keys !! m.Keys then Some(m + c) else None
  {
    ghost var c := Expand(spec, target, roles);
    var grown := m;
    for port := spec.lo to spec.hi + 1
      invariant forall p :: spec.lo <= p < port ==> p !in m
      invariant grown == m + map p | spec.lo <= p < port :: Row(spec, target, roles, p)
    {
      if port in grown {
        assert port in m && port in c;
        return None;
      }
      var here := target;
      if spec.isRange {
        DecimalFacts(port);
        HostPortParses(target.host, FormatInt(port));
        var perPort := ParseHostPort(target.host + ":" + FormatInt(port));
        if perPort.None? {
          assert false;
        }
        here := perPort.value;
      }
      grown := grown[port := SSHUpstream(port, here, roles)];
    }
    assert c == map p | spec.lo <= p < spec.hi + 1 :: Row(spec, target, roles, p);
    r := Some(grown);
  }

  /** The checks on one entry, in the source's order. */
  method ReadEntry(entry: string) returns (r: Option<(PortSpec, HostPort, seq<string>)>)
    ensures r.None? <==> ParseSSHEntry(entry).None?
    ensures r.Some? ==> 1 <= r.value.0.lo <= r.value.0.hi && PlainHost(r.value.1.host)
    ensures r.Some? ==> ParseSSHEntry(entry) == Some(Expand(r.value.0, r.value.1, r.value.2))
  {
    hide Cut, Trim, Expand, RoleList;
    var cut := Cut(entry, '=');
    if cut.None? {
      return None;
    }
    var portRaw, rest := Trim(cut.value.0), Trim(cut.value.1);
    if portRaw == "" {
      NoPort();
      return None;
    }
    var spec := ParsePortSpec(portRaw);
    if spec.None? {
      return None;
    }
    PortSpecFacts(portRaw);
    var halves := Cut(rest, '|');
    if halves.None? {
      return None;
    }
    var targetRaw, rolesRaw := Trim(halves.value.0), Trim(halves.value.1);
    if targetRaw == "" {
      return None;
    }
    if rolesRaw == "" {
      NoRoles();
      return None;
    }
    var target := ParseHostPort(targetRaw);
    if target.None? {
      return None;
    }
    if spec.value.isRange {
      if target.value.port != "" {
        return None;
      }
    } else if target.value.port == "" {
      return None;
    }
    var roles := ParseRoleList(rolesRaw);
    if roles.None? {
      return None;
    }
    r := Some((spec.value, target.value, roles.value));
  }

  /** parseSSHUpstreams. */
  method ParseSSHUpstreams(raw: string) returns (r: Option<Table>)
    ensures r == ParseTable(ParseSSHEntry, raw)
  {
    hide Split, ParseSSHEntry, Expand, Trim;
    var pieces := Split(raw, ';');
    var m: Table := map[];
    assert pieces[0..] == pieces;
    for i := 0 to |pieces|
      invariant Fold(ParseSSHEntry, pieces, map[]) == Fold(ParseSSHEntry, pieces[i..], m)
    {
      assert pieces[i..] == [pieces[i]] + pieces[i + 1..];
      FoldCons(ParseSSHEntry, pieces[i], pieces[i + 1..], m);
      var entry := Trim(pieces[i]);
      if entry == "" {
        assert m + map[] == m;
        continue;
      }
      var fields := ReadEntry(entry);
      if fields.None? {
        return None;
      }
      var (spec, target, roles) := fields.value;
      var grown := AddPorts(m, spec, target, roles);
      if grown.None? {
        return None;
      }
      m := grown.value;
    }
    assert pieces[|pieces|..] == [];
    r := if |m| == 0 then None else Some(m);
  }

  lemma NoPort()
    ensures ParsePortSpec("").None?
  {
    assert Trim("") == "";
  }

  lemma NoRoles()
    ensures RoleList("").None?
  {
    assert TrimAll([""])[0] == "";
  }

  // Numerals and port specifications

  lemma DecimalIsPort(n: nat)
    requires 1 <= n <= 65535
    ensures ParsePort(Decimal(n)) == Some(n)
    ensures '-' !in Decimal(n) && '=' !in Decimal(n) && ';' !in Decimal(n) && Trimmed(Decimal(n))
  {
    DecimalFacts(n);
    var s := Decimal(n);
    assert forall c :: c in s ==> exists i :: 0 <= i < |s| && s[i] == c;
    assert IsDigit(s[0]) && IsDigit(s[|s| - 1]);
    TrimOfTrimmed(s);
  }

  /** Whatever is accepted is a range of valid ports, of at most the allowed width, and a single port
      unless a '-' was written. */
  lemma PortSpecFacts(portRaw: string)
    requires ParsePortSpec(portRaw).Some?
    ensures var spec := ParsePortSpec(portRaw).value;
      && 1 <= spec.lo <= spec.hi <= 65535 && spec.hi - spec.lo < MAX_SSH_PORT_RANGE
      && (spec.isRange <==> '-' in portRaw) && (!spec.isRange ==> spec.lo == spec.hi)
  {
    CutFacts(portRaw, '-');
  }

  /** Printed bounds are read back exactly when they are ports in order and not too many. */
  lemma PortSpecReadsBack(lo: nat, hi: nat)
    requires 1 <= lo <= 65535 && 1 <= hi <= 65535
    ensures ParsePortSpec(Decimal(lo)) == Some(PortSpec(lo, lo, false))
    ensures ParsePortSpec(Decimal(lo) + "-" + Decimal(hi))
         == if lo <= hi && hi - lo < MAX_SSH_PORT_RANGE then Some(PortSpec(lo, hi, true)) else None
  {
    DecimalIsPort(lo);
    DecimalIsPort(hi);
    CutFacts(Decimal(lo), '-');
    CutFirst(Decimal(lo), '-', Decimal(hi));
  }

  // Entries as they are written

  function SingleEntry(port: int, host: string, targetPort: string, roles: string): string {
    FormatInt(port) + "=" + (host + ":" + targetPort + "|" + roles)
  }

  function RangeEntry(lo: int, hi: int, host: string, roles: string): string {
    FormatInt(lo) + "-" + FormatInt(hi) + "=" + (host + "|" + roles)
  }

  /** An entry "ports=target|roles" is read field by field, whatever spaces stand around the fields. */
  lemma EntryFields(ports: string, target: string, roles: string)
    requires '=' !in ports && '|' !in target
    ensures Contribution(ParseSSHEntry, ports + "=" + (target + "|" + roles)) ==
      match ParsePortSpec(Trim(ports))
      case None => None
      case Some(spec) => Rows(spec, Trim(target), Trim(roles))
  {
    var rest := target + "|" + roles;
    CutTrimmed(ports, '=', rest);
    CutTrimmed(target, '|', roles);
    hide ParsePortSpec, Rows, Trim, Cut;
    assert ports + "=" + rest == ports + ['='] + rest && rest == target + ['|'] + roles;
  }

  lemma SingleParses(port: int, host: string, targetPort: string, roles: string)
    requires 1 <= port <= 65535 && PlainHost(host) && AllDigits(targetPort) && targetPort != "" && Trimmed(roles)
    ensures Contribution(ParseSSHEntry, SingleEntry(port, host, targetPort, roles)) ==
      match RoleList(roles)
      case None => None
      case Some(rs) => Some(map[port := SSHUpstream(port, HostPort(host, targetPort), rs)])
  {
    PortSpecReadsBack(port, port);
    DecimalIsPort(port);
    TargetFacts(host, targetPort);
    HostPortParses(host, targetPort);
    TrimOfTrimmed(FormatInt(port));
    TrimOfTrimmed(host + ":" + targetPort);
    TrimOfTrimmed(roles);
    hide Trim, Cut, RoleList, ParsePortSpec, ParseHostPort, Decimal, Contribution;
    EntryFields(FormatInt(port), host + ":" + targetPort, roles);
    assert host + ":" + targetPort + "|" + roles == (host + ":" + targetPort) + "|" + roles;
    var spec := PortSpec(port, port, false);
    forall rs: seq<string>
      ensures Expand(spec, HostPort(host, targetPort), rs)
           == map[port := SSHUpstream(port, HostPort(host, targetPort), rs)]
    {
    }
  }

  lemma TargetFacts(host: string, targetPort: string)
    requires PlainHost(host) && AllDigits(targetPort) && targetPort != ""
    ensures var target := host + ":" + targetPort; '|' !in target && ';' !in target && Trimmed(target)
  {
    NotIn(host);
    var target := host + ":" + targetPort;
    assert forall c :: c in targetPort ==> exists i :: 0 <= i < |targetPort| && targetPort[i] == c;
    assert target[0] == if host == "" then ':' else host[0];
    assert target[|target| - 1] == targetPort[|targetPort| - 1];
  }

  lemma RangeParses(lo: int, hi: int, host: string, roles: string)
    requires 1 <= lo <= hi <= 65535 && PlainHost(host) && Trimmed(roles)
    ensures Contribution(ParseSSHEntry, RangeEntry(lo, hi, host, roles)) ==
      if RoleList(roles).Some? && host != "" && hi - lo < MAX_SSH_PORT_RANGE
      then Some(Expand(PortSpec(lo, hi, true), HostPort(host, ""), RoleList(roles).value))
      else None
  {
    PortSpecReadsBack(lo, hi);
    DecimalIsPort(lo);
    DecimalIsPort(hi);
    NotIn(host);
    HostPortParses(host, "");
    var ports := FormatInt(lo) + "-" + FormatInt(hi);
    assert Trimmed(ports) by {
      DecimalFacts(lo);
      DecimalFacts(hi);
      assert ports[0] == Decimal(lo)[0] && ports[|ports| - 1] == Decimal(hi)[|Decimal(hi)| - 1];
    }
    TrimOfTrimmed(ports);
    TrimOfTrimmed(host);
    TrimOfTrimmed(roles);
    hide Trim, Cut, RoleList, ParsePortSpec, ParseHostPort, Decimal, Contribution;
    EntryFields(ports, host, roles);
  }

  // Printing a table and reading it back

  ghost predicate WellFormedRow(port: int, row: SSHUpstream) {
    && 1 <= port <= 65535 && row.port == port
    && PlainHost(row.target.host) && row.target.port != "" && AllDigits(row.target.port)
    && row.allowedRoles != [] && AllValid(row.allowedRoles)
  }

  ghost predicate WellFormed(t: Table) {
    |t| != 0 && forall k :: k in t ==> WellFormedRow(k, t[k])
  }

  function RenderRow(port: int, row: SSHUpstream): string {
    SingleEntry(port, row.target.host, row.target.port, Join(row.allowedRoles, ","))
  }

  lemma RowReadsBack(port: int, row: SSHUpstream)
    requires WellFormedRow(port, row)
    ensures ReadsBack(ParseSSHEntry, RenderRow, port, row)
  {
    var roles := Join(row.allowedRoles, ",");
    RoleListUndoesJoin(row.allowedRoles);
    PlainEntry(port, row.target.host, row.target.port, roles);
    hide Trim, RoleList, Contribution, Decimal, Join, IsRoleChar, Trimmed, SingleEntry, ParseSSHEntry;
    SingleParses(port, row.target.host, row.target.port, roles);
  }

  lemma PlainEntry(port: int, host: string, targetPort: string, roles: string)
    requires 1 <= port <= 65535 && PlainHost(host) && AllDigits(targetPort) && targetPort != "" && ';' !in roles
    ensures ';' !in SingleEntry(port, host, targetPort, roles)
  {
    DecimalIsPort(port);
    TargetFacts(host, targetPort);
    hide Decimal, PlainHost, AllDigits;
    assert host + ":" + targetPort + "|" + roles == (host + ":" + targetPort) + "|" + roles;
  }

  /** Every well-formed table, printed with its rows in any order, is read back as it was. */
  lemma RenderReadsBack(t: Table, ports: seq<int>)
    requires WellFormed(t) && Lists(ports, t)
    ensures ParseTable(ParseSSHEntry, Render(RenderRow, t, ports)) == Some(t)
  {
    hide ReadsBack;
    forall k | k in t
      ensures ReadsBack(ParseSSHEntry, RenderRow, k, t[k])
    {
      RowReadsBack(k, t[k]);
    }
    PrintedReadsBack(ParseSSHEntry, RenderRow, t, ports);
  }

  function PortsOf(entry: string): Option<PortSpec> {
    match Cut(entry, '=')
    case None => None
    case Some((portRaw, _)) => ParsePortSpec(Trim(portRaw))
  }

  predicate Covers(spec: PortSpec, p: int) { spec.lo <= p <= spec.hi }

  /** An accepted entry has one well-formed row for each port of its interval, and no other. */
  lemma EntryRows(entry: string)
    requires ParseSSHEntry(entry).Some?
    ensures PortsOf(entry).Some? && forall k :: k in ParseSSHEntry(entry).value <==> Covers(PortsOf(entry).value, k)
    ensures forall k :: k in ParseSSHEntry(entry).value ==> WellFormedRow(k, ParseSSHEntry(entry).value[k])
  {
    hide Cut, Trim, RoleList, ParseHostPort, Decimal;
    var (portRaw, rest) := Cut(entry, '=').value;
    PortSpecFacts(Trim(portRaw));
    var spec := ParsePortSpec(Trim(portRaw)).value;
    var (targetRaw, rolesRaw) := Cut(Trim(rest), '|').value;
    AcceptedRoles(Trim(rolesRaw));
    HostPortFacts(Trim(targetRaw));
    forall k | spec.lo <= k <= spec.hi
      ensures FormatInt(k) != "" && AllDigits(FormatInt(k))
    {
      DecimalFacts(k);
    }
  }

  lemma HostPortFacts(s: string)
    requires ParseHostPort(s).Some?
    ensures PlainHost(ParseHostPort(s).value.host) && AllDigits(ParseHostPort(s).value.port)
  {
  }

  // The table as a partition

  function Width(piece: string): nat {
    var spec := PortsOf(Trim(piece));
    if Trim(piece) != "" && spec.Some? && spec.value.lo <= spec.value.hi then spec.value.hi - spec.value.lo + 1 else 0
  }

  function WidthSum(pieces: seq<string>): nat {
    if pieces == [] then 0 else Width(pieces[0]) + WidthSum(pieces[1..])
  }

  /** The keys of an accepted entry are the ports of its interval. */
  predicate NamesPort(entry: string, p: int) { PortsOf(entry).Some? && Covers(PortsOf(entry).value, p) }

  lemma NamesPorts()
    ensures Naming(ParseSSHEntry, NamesPort)
  {
    forall e | ParseSSHEntry(e).Some?
      ensures forall k :: k in ParseSSHEntry(e).value <==> NamesPort(e, k)
      ensures exists k :: k in ParseSSHEntry(e).value
    {
      EntryRows(e);
      EntryInterval(e);
      hide ParseSSHEntry, PortsOf;
      assert NamesPort(e, PortsOf(e).value.lo);
    }
  }

  lemma PieceRow(pieces: seq<string>, i: nat, k: int)
    requires i < |pieces| && k in Part(ParseSSHEntry, pieces, i)
    ensures WellFormedRow(k, Part(ParseSSHEntry, pieces, i)[k])
  {
    hide ParseSSHEntry, PortsOf, Trim, WellFormedRow;
    if Trim(pieces[i]) != "" { EntryRows(Trim(pieces[i])); }
  }

  /** What an accepted text means: only well-formed rows. With RenderReadsBack this makes the accepted
      tables exactly the well-formed ones. */
  lemma AcceptedIsWellFormed(raw: string)
    requires ParseTable(ParseSSHEntry, raw).Some?
    ensures WellFormed(ParseTable(ParseSSHEntry, raw).value)
  {
    var pieces, t := Split(raw, ';'), ParseTable(ParseSSHEntry, raw).value;
    hide Split, WellFormedRow;
    forall k | k in t
      ensures WellFormedRow(k, t[k])
    {
      FoldKey(ParseSSHEntry, pieces, map[], t, k);
      hide Fold, Part, ParseSSHEntry;
      var i :| 0 <= i < |pieces| && k in Part(ParseSSHEntry, pieces, i);
      PieceRow(pieces, i, k);
    }
  }

  /** A text is accepted exactly when it has an entry, every entry is well formed, and no port is in two
      of them. */
  lemma AcceptedIff(raw: string)
    ensures var pieces := Split(raw, ';');
      ParseTable(ParseSSHEntry, raw).Some? <==>
      EntriesParse(ParseSSHEntry, pieces) && NoOverlap(NamesPort, pieces) && HasEntry(pieces)
  {
    NamesPorts();
    hide *;
    AcceptsIff(ParseSSHEntry, NamesPort, raw);
  }

  lemma EntryInterval(entry: string)
    requires PortsOf(entry).Some?
    ensures 1 <= PortsOf(entry).value.lo <= PortsOf(entry).value.hi <= 65535
  {
    var (portRaw, _) := Cut(entry, '=').value;
    PortSpecFacts(Trim(portRaw));
  }

  lemma {:induction false} IntervalSize(ports: set<int>, spec: PortSpec)
    requires spec.lo <= spec.hi && forall p :: p in ports <==> Covers(spec, p)
    ensures |ports| == spec.hi - spec.lo + 1
    decreases spec.hi - spec.lo
  {
    assert spec.lo in ports;
    if spec.lo < spec.hi {
      IntervalSize(ports - {spec.lo}, spec.(lo := spec.lo + 1));
    } else {
      forall p | p in ports
        ensures p == spec.lo
      {
        assert Covers(spec, p);
      }
      assert ports == {spec.lo};
    }
  }

  /** The ports of an accepted table are the disjoint union of its entries' intervals: each port is in
      exactly one, is its own row's port, and their widths add up to the size of the table. */
  lemma PortsArePartitioned(raw: string)
    requires ParseTable(ParseSSHEntry, raw).Some?
    ensures var pieces, t := Split(raw, ';'), ParseTable(ParseSSHEntry, raw).value;
      && (forall k :: k in t <==> exists i :: 0 <= i < |pieces| && InPiece(NamesPort, pieces[i], k))
      && (forall k, i, j :: 0 <= i < j < |pieces| && InPiece(NamesPort, pieces[i], k) ==>
            !InPiece(NamesPort, pieces[j], k))
      && (forall k :: k in t ==> t[k].port == k)
      && |t| == WidthSum(pieces)
  {
    var pieces, t := Split(raw, ';'), ParseTable(ParseSSHEntry, raw).value;
    NamesPorts();
    AcceptedIff(raw);
    AcceptedIsWellFormed(raw);
    FoldSize(ParseSSHEntry, pieces, map[]);
    hide Split, Fold, InPiece, Naming, ParseSSHEntry, EntriesParse;
    SizeIsWidth(pieces);
    forall k
      ensures k in t <==> exists i :: 0 <= i < |pieces| && InPiece(NamesPort, pieces[i], k)
    {
      TableKey(ParseSSHEntry, NamesPort, pieces, t, k);
    }
  }

  lemma {:induction false} SizeIsWidth(pieces: seq<string>)
    requires EntriesParse(ParseSSHEntry, pieces)
    ensures SizeSum(ParseSSHEntry, pieces) == WidthSum(pieces)
  {
    if pieces != [] {
      assert EntriesParse(ParseSSHEntry, pieces[1..]);
      hide ParseSSHEntry, PortsOf, Trim;
      SizeIsWidth(pieces[1..]);
      var entry := Trim(pieces[0]);
      if entry != "" {
        EntryRows(entry);
        EntryInterval(entry);
        IntervalSize(ParseSSHEntry(entry).value.Keys, PortsOf(entry).value);
        assert |ParseSSHEntry(entry).value.Keys| == |ParseSSHEntry(entry).value|;
      }
    }
  }

  // Ranges are sugar

  function Singles(lo: int, hi: int, host: string, roles: string): seq<string>
    decreases hi - lo
  {
    if lo > hi then [] else [SingleEntry(lo, host, FormatInt(lo), roles)] + Singles(lo + 1, hi, host, roles)
  }

  lemma {:induction false} FoldSingles(lo: int, hi: int, host: string, roles: string, m: Table)
    requires 1 <= lo <= hi + 1 && hi <= 65535 && PlainHost(host) && Trimmed(roles) && RoleList(roles).Some?
    ensures var c := Expand(PortSpec(lo, hi, true), HostPort(host, ""), RoleList(roles).value);
      Fold(ParseSSHEntry, Singles(lo, hi, host, roles), m) == if c.Keys !! m.Keys then Some(m + c) else None
    decreases hi - lo
  {
    var c := Expand(PortSpec(lo, hi, true), HostPort(host, ""), RoleList(roles).value);
    if lo <= hi {
      var rest := Expand(PortSpec(lo + 1, hi, true), HostPort(host, ""), RoleList(roles).value);
      var one := map[lo := c[lo]];
      DecimalFacts(lo);
      SingleParses(lo, host, FormatInt(lo), roles);
      FoldCons(ParseSSHEntry, SingleEntry(lo, host, FormatInt(lo), roles), Singles(lo + 1, hi, host, roles), m);
      hide Fold, Contribution, SingleEntry, RoleList, FormatInt, Trimmed;
      ExpandFirst(lo, hi, HostPort(host, ""), RoleList(roles).value, m);
      if lo !in m {
        FoldSingles(lo + 1, hi, host, roles, m + one);
      }
    } else {
      assert c == map[];
      assert m + c == m;
    }
  }

  lemma ExpandFirst(lo: int, hi: int, target: HostPort, roles: seq<string>, m: Table)
    requires lo <= hi
    ensures
      var c := Expand(PortSpec(lo, hi, true), target, roles);
      var rest := Expand(PortSpec(lo + 1, hi, true), target, roles);
      && lo in c
      && m + map[lo := c[lo]] + rest == m + c
      && (c.Keys !! m.Keys <==> lo !in m && rest.Keys !! (m + map[lo := c[lo]]).Keys)
  {
    var c, rest := Expand(PortSpec(lo, hi, true), target, roles), Expand(PortSpec(lo + 1, hi, true), target, roles);
    assert c == map[lo := c[lo]] + rest;
  }

  lemma BadRoles(lo: int, hi: int, host: string, roles: string, m: Table)
    requires 1 <= lo <= hi <= 65535 && PlainHost(host) && Trimmed(roles) && RoleList(roles).None?
    ensures Fold(ParseSSHEntry, Singles(lo, hi, host, roles), m).None?
  {
    DecimalFacts(lo);
    SingleParses(lo, host, FormatInt(lo), roles);
  }

  lemma {:induction false} SinglesPlain(lo: int, hi: int, host: string, roles: string)
    requires 1 <= lo <= hi + 1 && hi <= 65535 && PlainHost(host) && ';' !in roles
    ensures NoSemicolons(Singles(lo, hi, host, roles))
    decreases hi - lo
  {
    if lo <= hi {
      DecimalIsPort(lo);
      NotIn(host);
      SinglesPlain(lo + 1, hi, host, roles);
    }
  }

  lemma RangeFold(lo: int, hi: int, host: string, roles: string, m: Table)
    requires 1 <= lo <= hi <= 65535 && hi - lo < MAX_SSH_PORT_RANGE && PlainHost(host) && host != "" && Trimmed(roles)
    ensures Fold(ParseSSHEntry, [RangeEntry(lo, hi, host, roles)], m)
         == Fold(ParseSSHEntry, Singles(lo, hi, host, roles), m)
  {
    RangeParses(lo, hi, host, roles);
    var entry := RangeEntry(lo, hi, host, roles);
    assert [entry] == [entry] + [];
    FoldCons(ParseSSHEntry, entry, [], m);
    hide Contribution, RangeEntry, Trimmed, RoleList, PlainHost;
    if RoleList(roles).Some? {
      FoldSingles(lo, hi, host, roles, m);
    } else {
      BadRoles(lo, hi, host, roles, m);
    }
  }

  /** Wherever it stands among other entries, "lo-hi=host|roles" means what the entries
      "p=host:p|roles" for its ports mean, whether the text is accepted or not. */
  lemma RangeIsSugar(before: seq<string>, lo: int, hi: int, host: string, roles: string, after: seq<string>)
    requires NoSemicolons(before) && NoSemicolons(after) && ';' !in roles && Trimmed(roles)
    requires 1 <= lo <= hi <= 65535 && hi - lo < MAX_SSH_PORT_RANGE && PlainHost(host) && host != ""
    ensures ParseTable(ParseSSHEntry, Join(before + [RangeEntry(lo, hi, host, roles)] + after, ";"))
         == ParseTable(ParseSSHEntry, Join(before + Singles(lo, hi, host, roles) + after, ";"))
  {
    var entry, singles := RangeEntry(lo, hi, host, roles), Singles(lo, hi, host, roles);
    PlainRange(lo, hi, host, roles);
    SinglesPlain(lo, hi, host, roles);
    ParseJoined(ParseSSHEntry, before + [entry] + after);
    ParseJoined(ParseSSHEntry, before + singles + after);
    MiddleFold(before, [entry], after);
    MiddleFold(before, singles, after);
    var t := Fold(ParseSSHEntry, before, map[]);
    if t.Some? { RangeFold(lo, hi, host, roles, t.value); }
  }

  lemma MiddleFold(before: seq<string>, middle: seq<string>, after: seq<string>)
    ensures Fold(ParseSSHEntry, before + middle + after, map[]) ==
      match Fold(ParseSSHEntry, before, map[])
      case None => None
      case Some(t) =>
        match Fold(ParseSSHEntry, middle, t)
        case None => None
        case Some(u) => Fold(ParseSSHEntry, after, u)
  {
    assert before + middle + after == before + (middle + after);
    FoldConcat(ParseSSHEntry, before, middle + after, map[]);
    var t := Fold(ParseSSHEntry, before, map[]);
    if t.Some? { FoldConcat(ParseSSHEntry, middle, after, t.value); }
  }

  /** Exactly when: on its own, with a valid role list, a range means its single entries if and only if
      it names a host and is not too wide. The single entries are accepted in every case. */
  lemma SugarIff(lo: int, hi: int, host: string, roles: string)
    requires 1 <= lo <= hi <= 65535 && PlainHost(host) && Trimmed(roles) && RoleList(roles).Some? && ';' !in roles
    ensures var range, singles := RangeEntry(lo, hi, host, roles), Join(Singles(lo, hi, host, roles), ";");
      && ParseTable(ParseSSHEntry, singles).Some?
      && (ParseTable(ParseSSHEntry, range) == ParseTable(ParseSSHEntry, singles)
          <==> host != "" && hi - lo < MAX_SSH_PORT_RANGE)
  {
    SinglesAlone(lo, hi, host, roles);
    RangeAlone(lo, hi, host, roles);
    hide *;
  }

  lemma SinglesAlone(lo: int, hi: int, host: string, roles: string)
    requires 1 <= lo <= hi <= 65535 && PlainHost(host) && Trimmed(roles) && RoleList(roles).Some? && ';' !in roles
    ensures ParseTable(ParseSSHEntry, Join(Singles(lo, hi, host, roles), ";"))
         == Some(Expand(PortSpec(lo, hi, true), HostPort(host, ""), RoleList(roles).value))
  {
    var c := Expand(PortSpec(lo, hi, true), HostPort(host, ""), RoleList(roles).value);
    var singles := Singles(lo, hi, host, roles);
    assert singles != [];
    SinglesPlain(lo, hi, host, roles);
    hide Singles, RoleList, Trimmed, PlainHost, ParseSSHEntry;
    ParseJoined(ParseSSHEntry, singles);
    FoldSingles(lo, hi, host, roles, map[]);
    assert lo in c;
    assert map[] + c == c;
  }

  lemma RangeAlone(lo: int, hi: int, host: string, roles: string)
    requires 1 <= lo <= hi <= 65535 && PlainHost(host) && Trimmed(roles) && RoleList(roles).Some? && ';' !in roles
    ensures ParseTable(ParseSSHEntry, RangeEntry(lo, hi, host, roles)) ==
      if host != "" && hi - lo < MAX_SSH_PORT_RANGE
      then Some(Expand(PortSpec(lo, hi, true), HostPort(host, ""), RoleList(roles).value))
      else None
  {
    var entry := RangeEntry(lo, hi, host, roles);
    var c := Expand(PortSpec(lo, hi, true), HostPort(host, ""), RoleList(roles).value);
    PlainRange(lo, hi, host, roles);
    RangeParses(lo, hi, host, roles);
    hide RoleList, Trimmed, PlainHost, ParseSSHEntry, RangeEntry, Contribution;
    ParseJoined(ParseSSHEntry, [entry]);
    assert Join([entry], ";") == entry;
    assert [entry] == [entry] + [];
    FoldCons(ParseSSHEntry, entry, [], map[]);
    assert lo in c;
    assert map[] + c == c;
  }

  lemma PlainRange(lo: int, hi: int, host: string, roles: string)
    requires 1 <= lo <= hi <= 65535 && PlainHost(host) && ';' !in roles
    ensures ';' !in RangeEntry(lo, hi, host, roles)
  {
    DecimalIsPort(lo);
    DecimalIsPort(hi);
    NotIn(host);
  }
}
