/** UPSTREAMS (parseUpstreams, legacyEntryErr and Upstream.Permits in internal/config/config.go):
    "host=url;host=url|role,role". None stands for any of the source's errors. */
module HttpUpstreams {
  import opened Basics
  import opened Text
  import opened Roles
  import opened EntryTable

  /** A parsed URL: the authority as written, and everything after it. */
  datatype Url = Url(scheme: string, authority: string, rest: string)

  /** No required roles means ungated. */
  datatype Upstream = Upstream(target: Url, requiredRoles: seq<string>)

  type Table = map<string, Upstream>

  predicate StartsRest(c: char) { c == '/' || c == '?' || c == '#' }

  /** Printable ASCII other than '%', which url.Parse takes as it is. */
  predicate IsUrlChar(c: char) { '!' <= c <= '~' && c != '%' }

  predicate PlainRest(s: string) { forall i :: 0 <= i < |s| ==> IsUrlChar(s[i]) }

  /** How much of the text is the authority. */
  function AuthorityLength(s: string): (n: nat)
    ensures n <= |s|
  {
    if s == "" || StartsRest(s[0]) then 0 else 1 + AuthorityLength(s[1..])
  }

  /** url.Parse on "scheme://host[:port]rest", followed by the checks that the scheme is http or https and
      that there is a host. */
  function ParseUrl(s: string): Option<Url> {
    match Cut(s, ':')
    case None => None
    case Some((schemeRaw, after)) =>
      var scheme := ToLower(schemeRaw);
      if !(scheme == "http" || scheme == "https") || !("//" <= after) then None
      else
        var n := AuthorityLength(after[2..]);
        var authority, rest := after[2..][..n], after[2..][n..];
        if authority == "" || ParseHostPort(authority).None? || !PlainRest(rest) then None
        else Some(Url(scheme, authority, rest))
  }

  /** legacyEntryErr. */
  predicate Legacy(rawUrl: string) { ',' in rawUrl }

  function ParseTarget(rawUrl: string): Option<Url> {
    if rawUrl == "" || Legacy(rawUrl) then None else ParseUrl(rawUrl)
  }

  function OptionalRoles(gate: Option<string>): Option<seq<string>> {
    match gate
    case None => Some([])
    case Some(raw) => RoleList(Trim(raw))
  }

  /** The url and, after the first '|', the role list. */
  function SplitGate(rest: string): (string, Option<string>) {
    match Cut(rest, '|')
    case None => (rest, None)
    case Some((rawUrl, roles)) => (rawUrl, Some(roles))
  }

  /** An entry from its host and from what follows the '=', both without outer spaces. */
  function ParseFields(hostRaw: string, rest: string): Option<Table> {
    var host, (rawUrl, gate) := ToLower(hostRaw), SplitGate(rest);
    var target, roles := ParseTarget(Trim(rawUrl)), OptionalRoles(gate);
    if host == "" || target.None? || roles.None? then None
    else Some(map[host := Upstream(target.value, roles.value)])
  }

  function ParseEntry(entry: string): Option<Table> {
    match Cut(entry, '=')
    case None => None
    case Some((hostRaw, restRaw)) => ParseFields(Trim(hostRaw), Trim(restRaw))
  }

  // The loop

  /** The checks on one entry, in the source's order. */
  method ReadEntry(entry: string) returns (r: Option<(string, Upstream)>)
    ensures ParseEntry(entry) == match r case None => None case Some((host, up)) => Some(map[host := up])
  {
    hide Cut, Trim, RoleList, ToLower, ParseUrl;
    var cut := Cut(entry, '=');
    if cut.None? {
      return None;
    }
    var host, rest := ToLower(Trim(cut.value.0)), Trim(cut.value.1);
    if host == "" || rest == "" {
      NoUrl();
      return None;
    }
    var (rawUrl, gate) := SplitGate(rest);
    rawUrl := Trim(rawUrl);
    if rawUrl == "" {
      return None;
    }
    if Legacy(rawUrl) {
      return None;
    }
    var target := ParseUrl(rawUrl);
    if target.None? {
      return None;
    }
    var roles := [];
    if gate.Some? {
      var rolesRaw := Trim(gate.value);
      if rolesRaw == "" {
        NoRoleList();
        return None;
      }
      var listed := ParseRoleList(rolesRaw);
      if listed.None? {
        return None;
      }
      roles := listed.value;
    }
    r := Some((host, Upstream(target.value, roles)));
  }

  lemma NoUrl()
    ensures SplitGate("") == ("", None) && Trim("") == ""
  {
  }

  lemma NoRoleList()
    ensures RoleList("").None?
  {
    assert TrimAll([""])[0] == "";
  }

  /** parseUpstreams. */
  method ParseUpstreams(raw: string) returns (r: Option<Table>)
    ensures r == ParseTable(ParseEntry, raw)
  {
    hide Split, ParseEntry, Trim;
    var pieces := Split(raw, ';');
    var m: Table := map[];
    assert pieces[0..] == pieces;
    for i := 0 to |pieces|
      invariant Fold(ParseEntry, pieces, map[]) == Fold(ParseEntry, pieces[i..], m)
    {
      assert pieces[i..] == [pieces[i]] + pieces[i + 1..];
      FoldCons(ParseEntry, pieces[i], pieces[i + 1..], m);
      var entry := Trim(pieces[i]);
      if entry == "" {
        assert m + map[] == m;
        continue;
      }
      var fields := ReadEntry(entry);
      if fields.None? {
        return None;
      }
      var (host, up) := fields.value;
      assert map[host := up].Keys == {host};
      if host in m {
        return None;
      }
      assert m + map[host := up] == m[host := up];
      m := m[host := up];
    }
    assert pieces[|pieces|..] == [];
    r := if |m| == 0 then None else Some(m);
  }

  // Role gates

  ghost predicate Shares(a: seq<string>, b: seq<string>) { exists r :: r in a && r in b }

  /** Upstream.Permits. */
  method Permits(up: Upstream, userRoles: seq<string>) returns (ok: bool)
    ensures ok <==> up.requiredRoles == [] || Shares(userRoles, up.requiredRoles)
  {
    if |up.requiredRoles| == 0 {
      return true;
    }
    for i := 0 to |userRoles|
      invariant forall j :: 0 <= j < i ==> userRoles[j] !in up.requiredRoles
    {
      if userRoles[i] in up.requiredRoles {
        assert userRoles[i] in userRoles;
        return true;
      }
    }
    ok := false;
  }

  /** rolesIntersect, the gate of the SSH listeners: an empty allowlist admits nobody. */
  method RolesIntersect(userRoles: seq<string>, allowedRoles: seq<string>) returns (ok: bool)
    ensures ok <==> Shares(userRoles, allowedRoles)
  {
    if |userRoles| == 0 || |allowedRoles| == 0 {
      return false;
    }
    var allowed: set<string> := {};
    for i := 0 to |allowedRoles|
      invariant forall r :: r in allowed <==> exists j :: 0 <= j < i && allowedRoles[j] == r
    {
      allowed := allowed + {allowedRoles[i]};
    }
    for i := 0 to |userRoles|
      invariant forall j :: 0 <= j < i ==> userRoles[j] !in allowedRoles
    {
      if userRoles[i] in allowed {
        assert userRoles[i] in userRoles && userRoles[i] in allowedRoles;
        return true;
      }
      assert userRoles[i] !in allowedRoles;
    }
    ok := false;
  }

  // Hosts

  /** A host as it is kept: in lower case, with no space around it and none of the separators. */
  ghost predicate HostKey(h: string) {
    && h != "" && Trimmed(h) && '=' !in h && ';' !in h
    && forall i :: 0 <= i < |h| ==> !('A' <= h[i] <= 'Z')
  }

  lemma KeyIsLower(h: string)
    requires HostKey(h)
    ensures ToLower(h) == h
  {
    LowerAt(h);
  }

  lemma LowerKeeps(s: string, c: char)
    requires !('A' <= c <= 'Z') && !('a' <= c <= 'z') && c !in s
    ensures c !in ToLower(s)
  {
    LowerAt(s);
    forall i | 0 <= i < |s|
      ensures ToLower(s)[i] != c
    {
      assert s[i] in s;
    }
  }

  lemma LowerTrimmed(s: string)
    requires Trimmed(s)
    ensures Trimmed(ToLower(s))
  {
    LowerAt(s);
  }

  // Entries as they are written

  function RenderUrl(u: Url): string { u.scheme + ":" + ("//" + u.authority + u.rest) }

  function RenderGate(roles: seq<string>): string { if roles == [] then "" else "|" + Join(roles, ",") }

  function RenderEntry(host: string, up: Upstream): string {
    host + "=" + (RenderUrl(up.target) + RenderGate(up.requiredRoles))
  }

  /** A url that can be written in an entry: the rest is empty or begins with its own mark, and has none
      of the separators in it. */
  ghost predicate WellFormedUrl(u: Url) {
    && (u.scheme == "http" || u.scheme == "https")
    && u.authority != "" && ParseHostPort(u.authority).Some?
    && PlainRest(u.rest) && (u.rest != "" ==> StartsRest(u.rest[0]))
    && ',' !in u.rest && ';' !in u.rest && '|' !in u.rest
  }

  ghost predicate WellFormedRow(host: string, up: Upstream) {
    HostKey(host) && WellFormedUrl(up.target) && AllValid(up.requiredRoles)
  }

  lemma AuthorityChars(a: string)
    requires ParseHostPort(a).Some?
    ensures forall i :: 0 <= i < |a| ==> IsHostChar(a[i]) || a[i] == ':'
  {
    CutFacts(a, ':');
    if Cut(a, ':').Some? {
      var (host, port) := Cut(a, ':').value;
      forall i | 0 <= i < |a|
        ensures IsHostChar(a[i]) || a[i] == ':'
      {
        assert a[i] == if i < |host| then host[i] else if i == |host| then ':' else port[i - |host| - 1];
      }
    }
  }

  lemma {:induction false} AuthorityEnds(a: string, rest: string)
    requires forall i :: 0 <= i < |a| ==> IsHostChar(a[i]) || a[i] == ':'
    requires rest != "" ==> StartsRest(rest[0])
    ensures AuthorityLength(a + rest) == |a|
  {
    if a != "" {
      assert (a + rest)[1..] == a[1..] + rest;
      AuthorityEnds(a[1..], rest);
    } else {
      assert a + rest == rest;
    }
  }

  lemma {:induction false} AuthorityFound(s: string)
    ensures var n := AuthorityLength(s);
      && (forall i :: 0 <= i < n ==> !StartsRest(s[i]))
      && (n < |s| ==> StartsRest(s[n]))
  {
    if s != "" && !StartsRest(s[0]) {
      AuthorityFound(s[1..]);
      forall i | 0 < i < AuthorityLength(s)
        ensures !StartsRest(s[i])
      {
        assert s[i] == s[1..][i - 1];
      }
    }
  }

  lemma SchemeFacts(s: string)
    requires s == "http" || s == "https"
    ensures ToLower(s) == s && ':' !in s
  {
    LowerAt(s);
  }

  /** A url reads back as it was, and has no separator and no space in it. */
  lemma UrlReadsBack(u: Url)
    requires WellFormedUrl(u)
    ensures ParseTarget(RenderUrl(u)) == Some(u)
    ensures Trimmed(RenderUrl(u)) && RenderUrl(u) != ""
    ensures ';' !in RenderUrl(u) && '|' !in RenderUrl(u)
  {
    SchemeFacts(u.scheme);
    AuthorityChars(u.authority);
    var after := "//" + u.authority + u.rest;
    CutFirst(u.scheme, ':', after);
    assert after[2..] == u.authority + u.rest;
    AuthorityEnds(u.authority, u.rest);
    UrlChars(u);
  }

  lemma UrlChars(u: Url)
    requires WellFormedUrl(u)
    ensures var s := RenderUrl(u); Trimmed(s) && s != "" && ';' !in s && '|' !in s && ',' !in s
  {
    AuthorityChars(u.authority);
    var s := RenderUrl(u);
    var n := |u.scheme| + 3 + |u.authority|;
    forall i | 0 <= i < |s|
      ensures s[i] != ';' && s[i] != '|' && s[i] != ',' && !IsSpace(s[i])
    {
      if i >= n {
        assert s[i] == u.rest[i - n] && u.rest[i - n] in u.rest;
      } else if i >= |u.scheme| + 3 {
        assert s[i] == u.authority[i - |u.scheme| - 3];
      }
    }
  }

  lemma GateReadsBack(rawUrl: string, roles: seq<string>)
    requires AllValid(roles) && '|' !in rawUrl && Trimmed(rawUrl) && rawUrl != ""
    ensures var rest := rawUrl + RenderGate(roles);
      && Trimmed(rest) && rest != ""
      && SplitGate(rest).0 == rawUrl && OptionalRoles(SplitGate(rest).1) == Some(roles)
      && ';' !in RenderGate(roles)
  {
    if roles == [] {
      CutFacts(rawUrl, '|');
      assert rawUrl + "" == rawUrl;
    } else {
      var joined := Join(roles, ",");
      RoleListUndoesJoin(roles);
      TrimOfTrimmed(joined);
      ListedGate(rawUrl, joined);
      hide Join, RoleList, Trim, Trimmed, AllValid, Cut;
      assert rawUrl + ("|" + joined) == rawUrl + "|" + joined;
    }
  }

  lemma ListedGate(rawUrl: string, joined: string)
    requires '|' !in rawUrl && Trimmed(rawUrl) && rawUrl != "" && Trimmed(joined) && joined != ""
    ensures Trimmed(rawUrl + "|" + joined) && SplitGate(rawUrl + "|" + joined) == (rawUrl, Some(joined))
  {
    var rest := rawUrl + "|" + joined;
    CutFirst(rawUrl, '|', joined);
    assert rest[0] == rawUrl[0] && rest[|rest| - 1] == joined[|joined| - 1];
  }

  lemma RowReadsBack(host: string, up: Upstream)
    requires WellFormedRow(host, up)
    ensures ReadsBack(ParseEntry, RenderEntry, host, up)
  {
    UrlReadsBack(up.target);
    KeyIsLower(host);
    var rawUrl := RenderUrl(up.target);
    GateReadsBack(rawUrl, up.requiredRoles);
    var rest := rawUrl + RenderGate(up.requiredRoles);
    TrimOfTrimmed(host);
    TrimOfTrimmed(rest);
    TrimOfTrimmed(rawUrl);
    hide RenderUrl, RenderGate, ParseTarget, OptionalRoles, SplitGate, WellFormedUrl, Trim, Trimmed, ToLower;
    EntryFields(host, rest);
    assert RenderEntry(host, up) == host + "=" + rest;
    hide Contribution;
  }

  /** An entry is read from its two halves, whatever spaces stand around them. */
  lemma EntryFields(host: string, rest: string)
    requires '=' !in host
    ensures Contribution(ParseEntry, host + "=" + rest) == ParseFields(Trim(host), Trim(rest))
  {
    CutTrimmed(host, '=', rest);
    hide Trim, Cut, ParseFields;
    assert host + "=" + rest == host + ['='] + rest;
  }

  /** Spaces around the host, the url, the bar and the role list make no difference. */
  lemma SpacesIgnored(host: string, rawUrl: string, roles: string, host': string, rawUrl': string, roles': string)
    requires '=' !in host && '|' !in rawUrl && '=' !in host' && '|' !in rawUrl'
    requires Trim(host) == Trim(host') && Trim(rawUrl) == Trim(rawUrl') && Trim(roles) == Trim(roles')
    ensures Contribution(ParseEntry, host + "=" + (rawUrl + "|" + roles))
         == Contribution(ParseEntry, host' + "=" + (rawUrl' + "|" + roles'))
    ensures Contribution(ParseEntry, host + "=" + rawUrl) == Contribution(ParseEntry, host' + "=" + rawUrl')
  {
    EntryFields(host, rawUrl + "|" + roles);
    EntryFields(host', rawUrl' + "|" + roles');
    EntryFields(host, rawUrl);
    EntryFields(host', rawUrl');
    CutTrimmed(rawUrl, '|', roles);
    CutTrimmed(rawUrl', '|', roles');
    hide Contribution, ParseEntry, Trim, Cut, ToLower, ParseTarget, RoleList;
    assert rawUrl + "|" + roles == rawUrl + ['|'] + roles;
    assert rawUrl' + "|" + roles' == rawUrl' + ['|'] + roles';
  }

  /** The scheme may be written in any case. */
  lemma SchemeCaseIgnored(scheme: string, other: string, after: string)
    requires EqualFold(scheme, other) && ':' !in scheme
    ensures ParseUrl(scheme + ":" + after) == ParseUrl(other + ":" + after)
  {
    LowerIff(scheme, other);
    forall i | 0 <= i < |other|
      ensures other[i] != ':'
    {
      assert scheme[i] in scheme;
    }
    CutFirst(scheme, ':', after);
    CutFirst(other, ':', after);
    hide Cut, ToLower;
    assert scheme + ":" + after == scheme + [':'] + after && other + ":" + after == other + [':'] + after;
  }

  ghost predicate WellFormed(t: Table) {
    |t| != 0 && forall h :: h in t ==> WellFormedRow(h, t[h])
  }

  /** Every well-formed table, printed with its hosts in any order, is read back as it was. */
  lemma RenderReadsBack(t: Table, hosts: seq<string>)
    requires WellFormed(t) && Lists(hosts, t)
    ensures ParseTable(ParseEntry, Render(RenderEntry, t, hosts)) == Some(t)
  {
    hide ReadsBack;
    forall h | h in t
      ensures ReadsBack(ParseEntry, RenderEntry, h, t[h])
    {
      RowReadsBack(h, t[h]);
    }
    PrintedReadsBack(ParseEntry, RenderEntry, t, hosts);
  }

  /** Whatever is accepted is well formed. With RenderReadsBack this makes the accepted tables exactly the
      well-formed ones. */
  lemma AcceptedIsWellFormed(raw: string)
    requires ParseTable(ParseEntry, raw).Some?
    ensures WellFormed(ParseTable(ParseEntry, raw).value)
  {
    var pieces, t := Split(raw, ';'), ParseTable(ParseEntry, raw).value;
    SplitParts(raw, ';');
    FoldSucceedsIff(ParseEntry, pieces, map[]);
    hide Split, ParseEntry, WellFormedRow, Disjoint;
    forall h | h in t
      ensures WellFormedRow(h, t[h])
    {
      FoldKey(ParseEntry, pieces, map[], t, h);
      hide Fold;
      var i :| 0 <= i < |pieces| && h in Part(ParseEntry, pieces, i);
      PieceRow(pieces[i], h);
    }
  }

  lemma PieceRow(piece: string, h: string)
    requires ';' !in piece && Contribution(ParseEntry, piece).Some? && h in Contribution(ParseEntry, piece).value
    ensures WellFormedRow(h, Contribution(ParseEntry, piece).value[h])
  {
    TrimFacts(piece);
    hide ParseEntry, Trim;
    EntryRow(Trim(piece), h);
  }

  lemma EntryRow(entry: string, h: string)
    requires ';' !in entry && ParseEntry(entry).Some? && h in ParseEntry(entry).value
    ensures WellFormedRow(h, ParseEntry(entry).value[h])
  {
    var (hostRaw, restRaw) := Cut(entry, '=').value;
    CutFacts(entry, '=');
    TrimFacts(hostRaw);
    TrimFacts(restRaw);
    KeyFacts(Trim(hostRaw));
    var rest := Trim(restRaw);
    var (rawUrl, gate) := SplitGate(rest);
    CutFacts(rest, '|');
    TrimFacts(rawUrl);
    hide Cut, Trim, ToLower, ParseUrl, RoleList, Trimmed, HostKey, WellFormedUrl;
    assert '|' !in rawUrl && ';' !in rawUrl;
    UrlFacts(Trim(rawUrl));
    if gate.Some? { AcceptedRoles(Trim(gate.value)); }
  }

  lemma KeyFacts(host: string)
    requires Trimmed(host) && '=' !in host && ';' !in host && ToLower(host) != ""
    ensures HostKey(ToLower(host))
  {
    LowerIff(host, host);
    LowerTrimmed(host);
    LowerKeeps(host, '=');
    LowerKeeps(host, ';');
  }

  lemma UrlFacts(rawUrl: string)
    requires ParseTarget(rawUrl).Some? && '|' !in rawUrl && ';' !in rawUrl
    ensures WellFormedUrl(ParseTarget(rawUrl).value)
  {
    CutFacts(rawUrl, ':');
    var (schemeRaw, after) := Cut(rawUrl, ':').value;
    var n := AuthorityLength(after[2..]);
    AuthorityFound(after[2..]);
    var rest := after[2..][n..];
    hide Cut, ToLower, ParseHostPort, AuthorityLength, StartsRest;
    forall c | c in rest
      ensures c in rawUrl
    {
      assert c in after[2..];
      assert c in after;
    }
  }

  // What is refused

  lemma {:induction false} TrimKeeps(s: string, c: char)
    requires c in s && !IsSpace(c)
    ensures c in Trim(s)
  {
    TrimLeftKeeps(s, c);
    TrimRightKeeps(TrimLeft(s), c);
  }

  lemma {:induction false} TrimLeftKeeps(s: string, c: char)
    requires c in s && !IsSpace(c)
    ensures c in TrimLeft(s)
  {
    if IsSpace(s[0]) {
      assert s == [s[0]] + s[1..];
      TrimLeftKeeps(s[1..], c);
    }
  }

  lemma {:induction false} TrimRightKeeps(s: string, c: char)
    requires c in s && !IsSpace(c)
    ensures c in TrimRight(s)
  {
    if IsSpace(s[|s| - 1]) {
      assert s == s[..|s| - 1] + [s[|s| - 1]];
      TrimRightKeeps(s[..|s| - 1], c);
    }
  }

  /** A value still in the old comma-separated form, with no ';' and no '|' in it, never yields a table,
      whatever its urls look like: one that is accepted has no comma after its first '='. */
  lemma LegacyFormRefused(host: string, rest: string)
    requires '=' !in host && ';' !in host && ';' !in rest && '|' !in rest && ',' in rest
    ensures ParseTable(ParseEntry, host + "=" + rest).None?
  {
    var raw := host + "=" + rest;
    SplitPlain(raw, ';');
    var entry := Trim(raw);
    LegacyEntry(host, rest);
    assert [raw][0] == raw;
  }

  lemma LegacyEntry(host: string, rest: string)
    requires '=' !in host && '|' !in rest && ',' in rest
    ensures Contribution(ParseEntry, host + "=" + rest).None?
  {
    EntryFields(host, rest);
    var trimmed := Trim(rest);
    TrimKeeps(rest, ',');
    TrimFacts(rest);
    CutFacts(trimmed, '|');
    TrimKeeps(trimmed, ',');
    hide Contribution, ParseEntry, Trim, Cut, ToLower, ParseUrl;
  }

  /** An accepted entry is ungated exactly when it has no '|' after its '=': a list that was begun is never
      read as letting everybody in. */
  lemma GatedIffBar(entry: string)
    requires ParseEntry(entry).Some?
    ensures var after := Cut(entry, '=').value.1;
      exists host :: host in ParseEntry(entry).value &&
        (ParseEntry(entry).value[host].requiredRoles != [] <==> '|' in after)
  {
    var (hostRaw, restRaw) := Cut(entry, '=').value;
    var (rawUrl, gate) := SplitGate(Trim(restRaw));
    CutFacts(Trim(restRaw), '|');
    TrimFacts(restRaw);
    if '|' in restRaw { TrimKeeps(restRaw, '|'); }
    hide Cut, Trim, ToLower, ParseTarget, RoleList;
    if gate.Some? { AcceptedRoles(Trim(gate.value)); }
    assert ToLower(Trim(hostRaw)) in ParseEntry(entry).value;
  }

  /** The host as it is written. */
  function WrittenHost(entry: string): string {
    match Cut(entry, '=')
    case None => ""
    case Some((hostRaw, _)) => Trim(hostRaw)
  }

  predicate NamesHost(entry: string, host: string) { host == ToLower(WrittenHost(entry)) }

  lemma NamesHosts()
    ensures Naming(ParseEntry, NamesHost)
  {
    hide Cut, Trim, ToLower, ParseTarget, OptionalRoles;
    forall e | ParseEntry(e).Some?
      ensures forall h :: h in ParseEntry(e).value <==> NamesHost(e, h)
      ensures exists h :: h in ParseEntry(e).value
    {
      assert ToLower(WrittenHost(e)) in ParseEntry(e).value;
    }
  }

  ghost predicate HostsDiffer(pieces: seq<string>) {
    forall i, j :: 0 <= i < j < |pieces| && Trim(pieces[i]) != "" && Trim(pieces[j]) != "" ==>
      !EqualFold(WrittenHost(Trim(pieces[i])), WrittenHost(Trim(pieces[j])))
  }

  /** A text is accepted exactly when it has an entry, every entry is well formed, and no two name the same
      host up to case. */
  lemma AcceptedIff(raw: string)
    ensures var pieces := Split(raw, ';');
      ParseTable(ParseEntry, raw).Some? <==>
      EntriesParse(ParseEntry, pieces) && HostsDiffer(pieces) && HasEntry(pieces)
  {
    var pieces := Split(raw, ';');
    NamesHosts();
    hide Split, Trim, WrittenHost, ParseEntry, EntriesParse, HasEntry, Naming, ToLower, EqualFold;
    AcceptsIff(ParseEntry, NamesHost, raw);
    forall i, j | 0 <= i < j < |pieces| && Trim(pieces[i]) != "" && Trim(pieces[j]) != ""
      ensures (exists h :: InPiece(NamesHost, pieces[i], h) && InPiece(NamesHost, pieces[j], h))
         <==> EqualFold(WrittenHost(Trim(pieces[i])), WrittenHost(Trim(pieces[j])))
    {
      var one, two := WrittenHost(Trim(pieces[i])), WrittenHost(Trim(pieces[j]));
      LowerIff(one, two);
      if EqualFold(one, two) {
        assert InPiece(NamesHost, pieces[i], ToLower(one)) && InPiece(NamesHost, pieces[j], ToLower(one));
      }
    }
    if HostsDiffer(pieces) {
      forall i, j, h | 0 <= i < j < |pieces| && InPiece(NamesHost, pieces[i], h)
        ensures !InPiece(NamesHost, pieces[j], h)
      {
      }
    }
  }
}
